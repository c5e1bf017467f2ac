/**
 The runner's pass, read through the results about interleavings: what the report and the status of one
 uninterrupted call say about the memory it ran on.
 */
module Passes {
  import opened Words
  import opened Patterns
  import opened Reports
  import opened Memories
  import opened ChunkVerify
  import opened Machine
  import opened Detection
  import opened StuckBits
  import opened Checksum
  import opened Crews
  import opened Solo
  import opened Runner

  /** A call of the runner is one of the interleavings of a one-worker team. */
  lemma {:induction false} PassIsAnInterleaving(plain: Config, fab: Fabric, cells: seq<Word>,
      stop: nat -> bool) returns (evs: seq<Event>)
    requires fab.Valid() && fab.Unaliased() && |cells| == fab.cellCount && plain.workerId < plain.workerCount
    ensures var job := JobOn(plain, fab);
      && Team([job], fab) && AllPossible([job], fab, evs) && NoUpsets(evs)
      && Exec([job], fab, Begin([job], fab, cells), evs).workers == [PassEnd(plain, fab, cells, stop).1]
      && Exec([job], fab, Begin([job], fab, cells), evs).cells == PassEnd(plain, fab, cells, stop).0
  {
    hide RunToEnd;
    var job := JobOn(plain, fab);
    assert Team([job], fab);
    var start := Begin([job], fab, cells);
    assert Exec([job], fab, start, []) == start;
    LoneRunIsARun(job, fab, start, [], stop, 0);
    StridesAreSteps(job, fab, cells, Fresh(job), stop, 0);
    evs :| AllPossible([job], fab, evs) && NoUpsets(evs)
      && Exec([job], fab, start, evs).cells == RunToEnd(job, fab, cells, Fresh(job), stop, 0).0
      && Exec([job], fab, start, evs).workers == [RunToEnd(job, fab, cells, Fresh(job), stop, 0).1];
  }

  /** Outside Extreme mode the checksum never moves. */
  lemma {:induction false} OtherModesKeepChecksum(job: Job, fab: Fabric, cells: seq<Word>, wk: Worker,
      stop: nat -> bool, t: nat)
    requires job.Valid(fab) && |cells| == fab.cellCount && Fits(job, wk.pc) && (Polls(wk.pc) || !Running(wk.pc))
    requires !job.cfg.mode.Extreme?
    ensures RunToEnd(job, fab, cells, wk, stop, t).1.pressure == wk.pressure
    decreases PhasesLeft(job, wk.pc), HalvesLeft(wk.pc), WordsLeft(job, wk.pc)
  {
    hide WriteCells, ChunkLog, Inject, FoldPressure;
    if Running(wk.pc) {
      var next := Stride(job, fab, cells, wk, stop(t));
      StrideDescends(job, fab, cells, wk, stop(t));
      OtherModesKeepChecksum(job, fab, next.0, next.1, stop, t + 1);
    }
  }

  /**
   Fault-free memory never fails a pass, and an uninterrupted one passes. Its checksum is then where it
   started, in every mode: the checksum of a clean Extreme pass is no trace of the work done.
   */
  lemma {:induction false} CleanPassPasses(plain: Config, fab: Fabric, cells: seq<Word>, stop: nat -> bool)
    requires fab.Valid() && fab.Unaliased() && |cells| == fab.cellCount && plain.workerId < plain.workerCount
    requires fab.NoStuckBits() && !plain.inject
    ensures var end := PassEnd(plain, fab, cells, stop).1;
      && end.log == [] && Verdict(end) == (if end.pc.Finished? then Pass else Aborted)
      && (end.pc.Finished? ==> end.pressure == Xor(plain.seed, FromNat(plain.workerId)))
  {
    hide PassEnd, Exec, Begin, Xor;
    var job := JobOn(plain, fab);
    var evs := PassIsAnInterleaving(plain, fab, cells, stop);
    NoFalseAlarms([job], fab, cells, evs, 0);
    if !plain.mode.Extreme? {
      assert PassEnd(plain, fab, cells, stop).1.pressure == Fresh(job).pressure by {
        PassEndIs(plain, fab, cells, stop);
        OtherModesKeepChecksum(job, fab, cells, Fresh(job), stop, 0);
      }
    } else if PassEnd(plain, fab, cells, stop).1.pc.Finished? {
      ChecksumMissesStuckBits([job], fab, cells, evs, 0);
    }
  }

  /** The checksum of a finished fault-free pass is zero exactly when the seed is the worker's number. */
  lemma {:induction false} CleanChecksumIsZero(plain: Config, fab: Fabric, cells: seq<Word>, stop: nat -> bool)
    requires fab.Valid() && fab.Unaliased() && |cells| == fab.cellCount && plain.workerId < plain.workerCount
    requires fab.NoStuckBits() && !plain.inject && PassEnd(plain, fab, cells, stop).1.pc.Finished?
    ensures PassEnd(plain, fab, cells, stop).1.pressure == 0 <==> plain.seed == FromNat(plain.workerId)
  {
    hide PassEnd, FromNat;
    CleanPassPasses(plain, fab, cells, stop);
    NoDifference(plain.seed, FromNat(plain.workerId));
  }

  /** One word with these bits stuck low. */
  function OneWord(low: Word): (fab: Fabric)
    ensures fab.Valid() && fab.Unaliased()
  {
    Fabric([0], [low], [0], 1)
  }

  /** Extreme over one healthy word, with seed 0 and worker 0. */
  const ZERO: Config := Config(Extreme, 0, 0, 0, 1, false)

  /** That pass passes with a checksum of zero. */
  lemma ChecksumCanBeZero(cells: seq<Word>, stop: nat -> bool)
    requires |cells| == 1 && forall u: nat :: !stop(u)
    ensures var end := PassEnd(ZERO, OneWord(0), cells, stop).1;
      Verdict(end) == Pass && end.pc.Finished? && end.pressure == 0
  {
    hide PassEnd, RunToEnd;
    assert FromNat(0) == 0;
    PassEndIs(ZERO, OneWord(0), cells, stop);
    UninterruptedFinishes(JobOn(ZERO, OneWord(0)), OneWord(0), cells, Fresh(JobOn(ZERO, OneWord(0))), stop, 0);
    CleanPassPasses(ZERO, OneWord(0), cells, stop);
    CleanChecksumIsZero(ZERO, OneWord(0), cells, stop);
  }

  /** What a finished pass logs: the stuck words of its slice that each phase shows. */
  lemma {:induction false} FinishedLog(plain: Config, fab: Fabric, cells: seq<Word>, stop: nat -> bool)
    requires fab.Valid() && fab.Unaliased() && |cells| == fab.cellCount && plain.workerId < plain.workerCount
    requires PassEnd(plain, fab, cells, stop).1.pc.Finished?
    ensures var job := JobOn(plain, fab); PassEnd(plain, fab, cells, stop).1.log == PhasesLog(job, fab, |job.phases|)
  {
    hide PassEnd, Exec, Begin, PhasesLog;
    var job := JobOn(plain, fab);
    var evs := PassIsAnInterleaving(plain, fab, cells, stop);
    LogIsPredicted([job], fab, cells, evs, 0);
  }

  /** An uninterrupted load-mode pass from an empty report: FAIL exactly for a stuck bit, and which ones. */
  lemma {:induction false} StuckPassFails(plain: Config, fab: Fabric, cells: seq<Word>, stop: nat -> bool)
    requires fab.Valid() && fab.Unaliased() && |cells| == fab.cellCount && plain.workerId < plain.workerCount
    requires !plain.mode.Quick? && !plain.inject && PassEnd(plain, fab, cells, stop).1.pc.Finished?
    ensures var job := JobOn(plain, fab);
      var end := PassEnd(plain, fab, cells, stop).1;
      var report := RecordAll(EMPTY, end.log);
      && (Verdict(end) == Fail <==> exists w: nat :: job.Owns(w) && StuckAt(fab, w) != 0)
      && StuckReport(fab, report, job.start, job.start + job.count)
  {
    hide PassEnd, Exec, Begin, RecordAll, StuckAt, StuckReport;
    var job := JobOn(plain, fab);
    var evs := PassIsAnInterleaving(plain, fab, cells, stop);
    LoadModesDriveBothWays(plain, |fab.wires|);
    StuckBitsAreReported([job], fab, cells, evs, 0);
    RecordingDigests(PassEnd(plain, fab, cells, stop).1.log);
  }

  /** With the debug injection an uninterrupted pass fails with one error per phase, all at the head of the slice. */
  lemma {:induction false} InjectedPassFails(plain: Config, fab: Fabric, cells: seq<Word>, stop: nat -> bool)
    requires fab.Valid() && fab.Unaliased() && |cells| == fab.cellCount && plain.workerId < plain.workerCount
    requires fab.NoStuckBits() && plain.inject && PassEnd(plain, fab, cells, stop).1.pc.Finished?
    requires JobOn(plain, fab).count > 0
    ensures var job := JobOn(plain, fab);
      var end := PassEnd(plain, fab, cells, stop).1;
      && Verdict(end) == Fail
      && RecordAll(EMPTY, end.log) ==
           Summary(Some(InjectedError(job, 0)), if plain.mode.Quick? then 3 else 8, 8 * job.start, 8 * job.start, 0x100)
      && InjectedError(job, 0) == ErrorRecord(plain.mode, FixedA, plain.seed, plain.pass, plain.workerId, 8 * job.start,
                                              0xaaaa_aaaa_aaaa_aaaa, Xor(0xaaaa_aaaa_aaaa_aaaa, 0x100))
  {
    hide PassEnd, Exec, Begin, RecordAll, Digest;
    var job := JobOn(plain, fab);
    var evs := PassIsAnInterleaving(plain, fab, cells, stop);
    InjectionIsReported([job], fab, cells, evs, 0);
    RecordingDigests(PassEnd(plain, fab, cells, stop).1.log);
  }

  // ----- Quick Check drives each bit only the way its three values happen to

  /** One word whose bit 0 is stuck low. */
  function StuckMemory(): (fab: Fabric)
    ensures fab.Valid() && fab.Unaliased()
  {
    OneWord(1)
  }

  /** Quick Check's first pass with seed 0. */
  const QUICK: Config := Config(Quick, 0, 0, 0, 1, false)

  lemma QuickStoresEvenWords(phase: Phase)
    requires phase in PhasesOf(Quick)
    ensures Sense(1, 0, Pattern(0, phase, 0)(0)) == Pattern(0, phase, 0)(0)
  {
    assert FromNat(0) == 0 && Bswap64(0) == 0 && Xor(0, 0) == 0;
    assert Sense(1, 0, FIXED_A) == FIXED_A && Sense(1, 0, 0) == 0;
  }

  lemma OneBitIsStuck()
    ensures StuckAt(StuckMemory(), 0) == 1
  {}

  /** An uninterrupted Quick Check of that memory returns PASS: it never stores a 1 in the stuck bit. */
  lemma QuickCanMissAStuckBit(cells: seq<Word>, stop: nat -> bool)
    requires |cells| == 1 && forall u: nat :: !stop(u)
    ensures StuckMemory().Valid() && StuckAt(StuckMemory(), 0) != 0
    ensures Verdict(PassEnd(QUICK, StuckMemory(), cells, stop).1) == Pass
  {
    hide PassEnd, RunToEnd, Exec, Begin, Sense, Pattern, StuckAt;
    OneBitIsStuck();
    var job := JobOn(QUICK, StuckMemory());
    PassEndIs(QUICK, StuckMemory(), cells, stop);
    UninterruptedFinishes(job, StuckMemory(), cells, Fresh(job), stop, 0);
    var evs := PassIsAnInterleaving(QUICK, StuckMemory(), cells, stop);
    forall p: nat | p < |job.phases|
      ensures Masked(job, StuckMemory(), p, job.count)
    {
      QuickStoresEvenWords(job.phases[p]);
    }
    PassIsSilentIffMasked([job], StuckMemory(), cells, evs, 0);
  }
}
