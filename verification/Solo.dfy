/**
 One worker running alone from start to end, with the stop flag an arbitrary sequence of booleans.
 This is the function that the imperative runner is proved to compute. Alone, a worker needs no
 assumption about the wiring, which is what address-line faults break.
 */
module Solo {
  import opened Words
  import opened Patterns
  import opened Reports
  import opened Memories
  import opened ChunkVerify
  import opened Machine
  import opened Findings

  // ----- a whole chunk at a time

  /** The pressure state after folding in the words of [lo, hi) as they read. */
  function FoldPressure(fab: Fabric, cells: seq<Word>, press: Word -> Word, state: Word, lo: nat, hi: nat): Word
    requires fab.Valid() && |cells| == fab.cellCount && lo <= hi <= |fab.wires|
    decreases hi
  {
    if hi == lo then state
    else Xor(FoldPressure(fab, cells, press, state, lo, hi - 1), press(Load(fab, cells, hi - 1)))
  }

  function WriteCells(job: Job, fab: Fabric, cells: seq<Word>, p: nat, done: nat): (r: seq<Word>)
    requires job.Valid(fab) && |cells| == fab.cellCount && p < |job.phases| && done < job.count
    ensures |r| == |cells|
  {
    var lo, c := job.start + done, NextChunk(job.count, done);
    StoreRange(fab, cells, job.patterns[p], lo, lo + c)
  }

  /** The pressure state after an Extreme pass over the chunk at done. */
  function ChunkPressure(job: Job, fab: Fabric, cells: seq<Word>, state: Word, done: nat): Word
    requires job.Valid(fab) && |cells| == fab.cellCount && done < job.count
  {
    var lo, c := job.start + done, NextChunk(job.count, done);
    if job.cfg.mode.Extreme? then FoldPressure(fab, cells, job.press, state, lo, lo + c) else state
  }

  /** From one poll to the next in the write half. */
  function WriteStride(job: Job, fab: Fabric, cells: seq<Word>, wk: Worker): (r: (seq<Word>, Worker))
    requires job.Valid(fab) && |cells| == fab.cellCount && wk.pc.Writing? && Fits(job, wk.pc)
    ensures |r.0| == |cells| && Fits(job, r.1.pc) && Polls(r.1.pc)
  {
    var p, done := wk.pc.p, wk.pc.done;
    var c := NextChunk(job.count, done);
    var stored := WriteCells(job, fab, cells, p, done);
    var after := wk.(progress := wk.progress + 8 * c, pressure := ChunkPressure(job, fab, stored, wk.pressure, done));
    if done + c < job.count then
      (stored, after.(pc := Writing(p, done + c)))
    else
      (if job.cfg.inject then Inject(fab, stored, job.start) else stored,
       after.(pc := Verifying(p, 0), written := wk.written + 8 * job.count))
  }

  /** From one poll to the next in the verify half. */
  function VerifyStride(job: Job, fab: Fabric, cells: seq<Word>, wk: Worker): (r: Worker)
    requires job.Valid(fab) && |cells| == fab.cellCount && wk.pc.Verifying? && Fits(job, wk.pc)
    ensures Fits(job, r.pc) && (Polls(r.pc) || r.pc.Finished?)
  {
    var p, done := wk.pc.p, wk.pc.done;
    var lo, c := job.start + done, NextChunk(job.count, done);
    var log := wk.log + ChunkLog(fab, cells, job.cfg, job.phases[p], job.patterns[p], lo, lo + c);
    EndVerify(job, wk.(log := log, pressure := ChunkPressure(job, fab, cells, wk.pressure, done)), p, done)
  }

  /** From one poll of the stop flag to the next. */
  function Stride(job: Job, fab: Fabric, cells: seq<Word>, wk: Worker, stop: bool): (r: (seq<Word>, Worker))
    requires job.Valid(fab) && |cells| == fab.cellCount && Polls(wk.pc) && Fits(job, wk.pc)
    ensures |r.0| == |cells| && Fits(job, r.1.pc) && (Polls(r.1.pc) || !Running(r.1.pc))
  {
    if stop then (cells, wk.(pc := Stopped(wk.pc)))
    else
      match wk.pc
      case AtPhase(p) => (cells, EnterPhase(job, wk))
      case Writing(_, _) => WriteStride(job, fab, cells, wk)
      case Verifying(_, _) => (cells, VerifyStride(job, fab, cells, wk))
  }

  /** Phases left, including the one under way. */
  function PhasesLeft(job: Job, pc: Pc): nat
    requires Fits(job, pc)
  {
    if Running(pc) then |job.phases| - pc.p else 0
  }

  /** Polls left in the current phase, in half phases and then words. */
  function HalvesLeft(pc: Pc): nat {
    match pc
    case AtPhase(_) => 3
    case Writing(_, _) => 2
    case Verifying(_, _) => 1
    case _ => 0
  }

  function WordsLeft(job: Job, pc: Pc): nat
    requires Fits(job, pc)
  {
    match pc
    case Writing(_, done) => job.count - done
    case Verifying(_, done) => job.count - done
    case _ => 0
  }

  /** The memory and the worker at the end of a run, stop(t) being what poll t of the stop flag reads. */
  function RunToEnd(job: Job, fab: Fabric, cells: seq<Word>, wk: Worker, stop: nat -> bool, t: nat):
      (r: (seq<Word>, Worker))
    requires job.Valid(fab) && |cells| == fab.cellCount && Fits(job, wk.pc) && (Polls(wk.pc) || !Running(wk.pc))
    ensures |r.0| == |cells| && Fits(job, r.1.pc) && !Running(r.1.pc)
    decreases PhasesLeft(job, wk.pc), HalvesLeft(wk.pc), WordsLeft(job, wk.pc)
  {
    if !Running(wk.pc) then (cells, wk)
    else
      var next := Stride(job, fab, cells, wk, stop(t));
      StrideDescends(job, fab, cells, wk, stop(t));
      RunToEnd(job, fab, next.0, next.1, stop, t + 1)
  }

  lemma {:induction false} StrideDescends(job: Job, fab: Fabric, cells: seq<Word>, wk: Worker, stop: bool)
    requires job.Valid(fab) && |cells| == fab.cellCount && Polls(wk.pc) && Fits(job, wk.pc)
    ensures var pc, pc' := wk.pc, Stride(job, fab, cells, wk, stop).1.pc;
      || PhasesLeft(job, pc') < PhasesLeft(job, pc)
      || (PhasesLeft(job, pc') == PhasesLeft(job, pc) && HalvesLeft(pc') < HalvesLeft(pc))
      || (PhasesLeft(job, pc') == PhasesLeft(job, pc) && HalvesLeft(pc') == HalvesLeft(pc)
          && WordsLeft(job, pc') < WordsLeft(job, pc))
  {
    hide ChunkPressure, ChunkLog, Load, Inject, WriteCells;
  }

  /** A run that no poll stops is finished at its end. */
  lemma {:induction false} UninterruptedFinishes(job: Job, fab: Fabric, cells: seq<Word>, wk: Worker,
      stop: nat -> bool, t: nat)
    requires job.Valid(fab) && |cells| == fab.cellCount && Fits(job, wk.pc) && (Polls(wk.pc) || wk.pc.Finished?)
    requires forall u: nat :: !stop(u)
    ensures RunToEnd(job, fab, cells, wk, stop, t).1.pc == Finished
    decreases PhasesLeft(job, wk.pc), HalvesLeft(wk.pc), WordsLeft(job, wk.pc)
  {
    hide ChunkPressure, ChunkLog, Inject, WriteCells;
    if Running(wk.pc) {
      var next := Stride(job, fab, cells, wk, stop(t));
      StrideDescends(job, fab, cells, wk, stop(t));
      UninterruptedFinishes(job, fab, next.0, next.1, stop, t + 1);
    }
  }

  // ----- how often a run polls, and what it shows

  /** Chunks of 1 MiB in so many words. */
  function Chunks(words: nat): nat {
    (words + 131071) / 131072
  }

  lemma ChunksLeft(count: nat, done: nat)
    requires done < count
    ensures Chunks(count - done) == 1 + Chunks(count - done - NextChunk(count, done))
  {}

  /** The polls of a whole phase: one before it, and one before each chunk of either half. */
  function PhasePolls(job: Job): nat {
    1 + 2 * Chunks(job.count)
  }

  /** The polls of n phases. */
  function PollsOf(job: Job, n: nat): nat {
    n * PhasePolls(job)
  }

  lemma OnePhaseMore(job: Job, n: nat)
    ensures PollsOf(job, 0) == 0 && PollsOf(job, n + 1) == PollsOf(job, n) + 1 + Chunks(job.count) + Chunks(job.count)
  {
    hide Chunks;
  }

  function PollsLeft(job: Job, pc: Pc): nat
    requires Fits(job, pc) && (Polls(pc) || pc.Finished?)
  {
    match pc
    case AtPhase(p) => PollsOf(job, |job.phases| - p)
    case Writing(p, done) => PollsOf(job, |job.phases| - p - 1) + Chunks(job.count) + Chunks(job.count - done)
    case Verifying(p, done) => PollsOf(job, |job.phases| - p - 1) + Chunks(job.count - done)
    case Finished => 0
  }

  lemma {:induction false} PollCounts(job: Job, fab: Fabric, cells: seq<Word>, wk: Worker)
    requires job.Valid(fab) && |cells| == fab.cellCount && Fits(job, wk.pc) && Polls(wk.pc)
    ensures PollsLeft(job, wk.pc) == 1 + PollsLeft(job, Stride(job, fab, cells, wk, false).1.pc)
  {
    hide Chunks, PollsOf, ChunkPressure, ChunkLog, Inject, WriteCells;
    OnePhaseMore(job, |job.phases| - wk.pc.p - 1);
    NoChunks();
    if !wk.pc.AtPhase? {
      ChunksLeft(job.count, wk.pc.done);
    }
  }

  lemma NoChunks()
    ensures Chunks(0) == 0
  {}

  /** A run finishes exactly if none of these polls tells it to stop. */
  lemma {:induction false} FinishesUnlessStopped(job: Job, fab: Fabric, cells: seq<Word>, wk: Worker,
      stop: nat -> bool, t: nat)
    requires job.Valid(fab) && |cells| == fab.cellCount && Fits(job, wk.pc) && (Polls(wk.pc) || wk.pc.Finished?)
    ensures RunToEnd(job, fab, cells, wk, stop, t).1.pc.Finished? <==>
      forall u :: t <= u < t + PollsLeft(job, wk.pc) ==> !stop(u)
    decreases PhasesLeft(job, wk.pc), HalvesLeft(wk.pc), WordsLeft(job, wk.pc)
  {
    hide PollsLeft, WriteStride, VerifyStride;
    if Running(wk.pc) {
      PollCounts(job, fab, cells, wk);
      if !stop(t) {
        var next := Stride(job, fab, cells, wk, false);
        StrideDescends(job, fab, cells, wk, false);
        FinishesUnlessStopped(job, fab, next.0, next.1, stop, t + 1);
      }
    } else {
      assert PollsLeft(job, wk.pc) == 0 by { NoPollsLeft(job); }
    }
  }

  lemma {:induction false} NoPollsLeft(job: Job)
    ensures PollsLeft(job, Finished) == 0
  {}

  /** The phase a worker shows: the last one it entered. */
  function PhaseShown(job: Job, pc: Pc): Phase
    requires Fits(job, pc) && |job.phases| > 0
  {
    var at := LastRunning(job, pc);
    if at.Finished? then job.phases[|job.phases| - 1]
    else if !at.AtPhase? then job.phases[at.p]
    else if at.p > 0 then job.phases[at.p - 1]
    else FixedA
  }

  lemma {:induction false} ShowsItsPhase(job: Job, fab: Fabric, cells: seq<Word>, wk: Worker, stop: nat -> bool, t: nat)
    requires job.Valid(fab) && |cells| == fab.cellCount && Fits(job, wk.pc) && (Polls(wk.pc) || !Running(wk.pc))
    requires wk.current == PhaseShown(job, wk.pc)
    ensures var end := RunToEnd(job, fab, cells, wk, stop, t).1; end.current == PhaseShown(job, end.pc)
    decreases PhasesLeft(job, wk.pc), HalvesLeft(wk.pc), WordsLeft(job, wk.pc)
  {
    hide ChunkPressure, ChunkLog, Inject, WriteCells;
    if Running(wk.pc) {
      var next := Stride(job, fab, cells, wk, stop(t));
      StrideDescends(job, fab, cells, wk, stop(t));
      ShowsItsPhase(job, fab, next.0, next.1, stop, t + 1);
    }
  }

  // ----- the same run, one word access at a time

  /** The end of a run of single steps. */
  function StepsToEnd(job: Job, fab: Fabric, cells: seq<Word>, wk: Worker, stop: nat -> bool, t: nat):
      (r: (seq<Word>, Worker))
    requires job.Valid(fab) && |cells| == fab.cellCount && Fits(job, wk.pc)
    ensures |r.0| == |cells| && Fits(job, r.1.pc) && !Running(r.1.pc)
    decreases Fuel(job, wk.pc)
  {
    if !Running(wk.pc) then (cells, wk)
    else
      var next := Step(job, fab, cells, wk, stop(t));
      StepBurns(job, fab, cells, wk, stop(t));
      StepsToEnd(job, fab, next.0, next.1, stop, if Polls(wk.pc) then t + 1 else t)
  }

  lemma {:induction false} StepsOnce(job: Job, fab: Fabric, cells: seq<Word>, wk: Worker, stop: nat -> bool, t: nat)
    requires job.Valid(fab) && |cells| == fab.cellCount && Fits(job, wk.pc) && Running(wk.pc)
    requires Polls(wk.pc) ==> !stop(t)
    ensures StepsToEnd(job, fab, cells, wk, stop, t)
         == StepsToEnd(job, fab, StepCells(job, fab, cells, wk.pc), StepWorker(job, fab, cells, wk), stop,
                       if Polls(wk.pc) then t + 1 else t)
  {
    hide StepCells, StepWorker;
  }

  lemma {:induction false} FoldConcat(fab: Fabric, cells: seq<Word>, press: Word -> Word, state: Word, lo: nat,
      mid: nat, hi: nat)
    requires fab.Valid() && |cells| == fab.cellCount && lo <= mid <= hi <= |fab.wires|
    ensures FoldPressure(fab, cells, press, state, lo, hi)
         == FoldPressure(fab, cells, press, FoldPressure(fab, cells, press, state, lo, mid), mid, hi)
    decreases hi
  {
    hide Load, Xor;
    if mid < hi {
      FoldConcat(fab, cells, press, state, lo, mid, hi - 1);
    }
  }

  lemma {:induction false} FoldOne(fab: Fabric, cells: seq<Word>, press: Word -> Word, state: Word, w: nat)
    requires fab.Valid() && |cells| == fab.cellCount && w < |fab.wires|
    ensures FoldPressure(fab, cells, press, state, w, w + 1) == Xor(state, press(Load(fab, cells, w)))
    ensures FoldPressure(fab, cells, press, state, w, w) == state
  {
    hide Load, Xor;
    assert FoldPressure(fab, cells, press, state, w, w) == state;
  }

  lemma {:induction false} StoreOne(fab: Fabric, cells: seq<Word>, f: nat -> Word, w: nat)
    requires fab.Valid() && |cells| == fab.cellCount && w < |fab.wires|
    ensures StoreRange(fab, cells, f, w, w + 1) == cells[fab.wires[w] := f(w)]
  {
    assert StoreRange(fab, cells, f, w, w) == cells;
  }

  lemma {:induction false} StoresRun(job: Job, fab: Fabric, cells: seq<Word>, wk: Worker, stop: nat -> bool, t: nat)
    requires job.Valid(fab) && |cells| == fab.cellCount && Fits(job, wk.pc) && wk.pc.Storing?
    ensures var p, done, k := wk.pc.p, wk.pc.done, wk.pc.k;
      var lo, c := job.start + done, NextChunk(job.count, done);
      StepsToEnd(job, fab, cells, wk, stop, t)
      == StepsToEnd(job, fab, StoreRange(fab, cells, job.patterns[p], lo + k, lo + c), EndStores(job, wk, p, done),
                    stop, t)
    decreases NextChunk(job.count, wk.pc.done) - wk.pc.k
  {
    hide StoreRange, EndStores, Load, StepsToEnd;
    StepsOnce(job, fab, cells, wk, stop, t);
    var p, done, k := wk.pc.p, wk.pc.done, wk.pc.k;
    var lo, c := job.start + done, NextChunk(job.count, done);
    StoreOne(fab, cells, job.patterns[p], lo + k);
    var next := (StepCells(job, fab, cells, wk.pc), StepWorker(job, fab, cells, wk));
    if k + 1 < c {
      StoresRun(job, fab, next.0, next.1, stop, t);
      StoreRangeConcat(fab, cells, job.patterns[p], lo + k, lo + k + 1, lo + c);
      SameEnd(job, wk, next.1, p, done);
    }
  }

  /** The ends of a chunk depend on the worker's counters and log alone. */
  lemma {:induction false} SameEnd(job: Job, wk: Worker, wk': Worker, p: nat, done: nat)
    requires p < |job.phases| && ChunkAt(job, done) && wk' == wk.(pc := wk'.pc)
    ensures EndStores(job, wk', p, done) == EndStores(job, wk, p, done)
    ensures EndWrite(job, wk', p, done) == EndWrite(job, wk, p, done)
    ensures EndErrors(job, wk', p, done) == EndErrors(job, wk, p, done)
    ensures EndVerify(job, wk', p, done) == EndVerify(job, wk, p, done)
  {}

  lemma {:induction false} FoldsRun(job: Job, fab: Fabric, cells: seq<Word>, wk: Worker, stop: nat -> bool, t: nat)
    requires job.Valid(fab) && |cells| == fab.cellCount && Fits(job, wk.pc) && wk.pc.Folding?
    ensures var p, done, k := wk.pc.p, wk.pc.done, wk.pc.k;
      var lo, c := job.start + done, NextChunk(job.count, done);
      var pressure := FoldPressure(fab, cells, job.press, wk.pressure, lo + k, lo + c);
      StepsToEnd(job, fab, cells, wk, stop, t)
      == StepsToEnd(job, fab, cells, EndWrite(job, wk.(pressure := pressure), p, done), stop, t)
    decreases NextChunk(job.count, wk.pc.done) - wk.pc.k
  {
    hide FoldPressure, EndWrite, Load, Xor, StepsToEnd;
    StepsOnce(job, fab, cells, wk, stop, t);
    var p, done, k := wk.pc.p, wk.pc.done, wk.pc.k;
    var lo, c := job.start + done, NextChunk(job.count, done);
    FoldOne(fab, cells, job.press, wk.pressure, lo + k);
    var next := StepWorker(job, fab, cells, wk);
    if k + 1 < c {
      FoldsRun(job, fab, cells, next, stop, t);
      FoldConcat(fab, cells, job.press, wk.pressure, lo + k, lo + k + 1, lo + c);
      var pressure := FoldPressure(fab, cells, job.press, wk.pressure, lo + k, lo + c);
      SameEnd(job, wk.(pressure := pressure), next.(pressure := pressure), p, done);
    }
  }

  lemma {:induction false} RefoldsRun(job: Job, fab: Fabric, cells: seq<Word>, wk: Worker, stop: nat -> bool, t: nat)
    requires job.Valid(fab) && |cells| == fab.cellCount && Fits(job, wk.pc) && wk.pc.Refolding?
    ensures var p, done, k := wk.pc.p, wk.pc.done, wk.pc.k;
      var lo, c := job.start + done, NextChunk(job.count, done);
      var pressure := FoldPressure(fab, cells, job.press, wk.pressure, lo + k, lo + c);
      StepsToEnd(job, fab, cells, wk, stop, t)
      == StepsToEnd(job, fab, cells, EndVerify(job, wk.(pressure := pressure), p, done), stop, t)
    decreases NextChunk(job.count, wk.pc.done) - wk.pc.k
  {
    hide FoldPressure, EndVerify, Load, Xor, StepsToEnd;
    StepsOnce(job, fab, cells, wk, stop, t);
    var p, done, k := wk.pc.p, wk.pc.done, wk.pc.k;
    var lo, c := job.start + done, NextChunk(job.count, done);
    FoldOne(fab, cells, job.press, wk.pressure, lo + k);
    var next := StepWorker(job, fab, cells, wk);
    if k + 1 < c {
      RefoldsRun(job, fab, cells, next, stop, t);
      FoldConcat(fab, cells, job.press, wk.pressure, lo + k, lo + k + 1, lo + c);
      var pressure := FoldPressure(fab, cells, job.press, wk.pressure, lo + k, lo + c);
      SameEnd(job, wk.(pressure := pressure), next.(pressure := pressure), p, done);
    }
  }

  lemma {:induction false} RecordsRun(job: Job, fab: Fabric, cells: seq<Word>, wk: Worker, stop: nat -> bool, t: nat)
    requires job.Valid(fab) && |cells| == fab.cellCount && Fits(job, wk.pc) && wk.pc.Recording?
    ensures var p, done, k := wk.pc.p, wk.pc.done, wk.pc.k;
      var lo, c := job.start + done, NextChunk(job.count, done);
      var log := wk.log + ChunkLog(fab, cells, job.cfg, job.phases[p], job.patterns[p], lo + k, lo + c);
      StepsToEnd(job, fab, cells, wk, stop, t)
        == StepsToEnd(job, fab, cells, EndErrors(job, wk.(log := log), p, done), stop, t)
    decreases NextChunk(job.count, wk.pc.done) - wk.pc.k
  {
    hide ChunkLog, EndErrors, Load, StepsToEnd;
    StepsOnce(job, fab, cells, wk, stop, t);
    var p, done, k := wk.pc.p, wk.pc.done, wk.pc.k;
    var lo, c := job.start + done, NextChunk(job.count, done);
    OneWordChunk(job, fab, cells, p, lo + k);
    var next := StepWorker(job, fab, cells, wk);
    if k + 1 < c {
      RecordsRun(job, fab, cells, next, stop, t);
      ChunkLogConcat(fab, cells, job.cfg, job.phases[p], job.patterns[p], lo + k, lo + k + 1, lo + c);
      var here := ErrorAt(job, fab, cells, p, lo + k);
      var rest := ChunkLog(fab, cells, job.cfg, job.phases[p], job.patterns[p], lo + k + 1, lo + c);
      assert wk.log + (here + rest) == wk.log + here + rest;
      SameEnd(job, wk.(log := wk.log + (here + rest)), next.(log := wk.log + here + rest), p, done);
    }
  }

  lemma {:induction false} OneWordChunk(job: Job, fab: Fabric, cells: seq<Word>, p: nat, w: nat)
    requires job.Valid(fab) && |cells| == fab.cellCount && p < |job.phases| && w < |fab.wires|
    ensures ChunkLog(fab, cells, job.cfg, job.phases[p], job.patterns[p], w, w + 1) == ErrorAt(job, fab, cells, p, w)
  {
    hide Load;
    assert ChunkLog(fab, cells, job.cfg, job.phases[p], job.patterns[p], w, w) == [];
  }

  /** Where the scan of a chunk ends up. */
  ghost function AfterScan(job: Job, fab: Fabric, cells: seq<Word>, wk: Worker, p: nat, done: nat, k: nat,
      dirty: bool): (r: Worker)
    requires job.Valid(fab) && |cells| == fab.cellCount && p < |job.phases| && ChunkAt(job, done)
    requires k <= NextChunk(job.count, done)
    ensures Fits(job, r.pc)
  {
    var lo, c := job.start + done, NextChunk(job.count, done);
    if dirty || !Clean(fab, cells, job.patterns[p], lo + k, lo + c) then wk.(pc := Recording(p, done, 0))
    else EndErrors(job, wk, p, done)
  }

  lemma {:induction false} ScansRun(job: Job, fab: Fabric, cells: seq<Word>, wk: Worker, stop: nat -> bool, t: nat)
    requires job.Valid(fab) && |cells| == fab.cellCount && Fits(job, wk.pc) && wk.pc.Scanning?
    ensures var pc := wk.pc;
      StepsToEnd(job, fab, cells, wk, stop, t)
      == StepsToEnd(job, fab, cells, AfterScan(job, fab, cells, wk, pc.p, pc.done, pc.k, pc.dirty), stop, t)
    decreases NextChunk(job.count, wk.pc.done) - wk.pc.k
  {
    hide EndErrors, Load, Clean, StepsToEnd;
    StepsOnce(job, fab, cells, wk, stop, t);
    var p, done, k := wk.pc.p, wk.pc.done, wk.pc.k;
    var lo, c := job.start + done, NextChunk(job.count, done);
    CleanSplits(fab, cells, job.patterns[p], lo + k, lo + c);
    var next := StepWorker(job, fab, cells, wk);
    if k + 1 < c {
      ScansRun(job, fab, cells, next, stop, t);
      SameEnd(job, wk, next, p, done);
    }
  }

  lemma {:induction false} CleanSplits(fab: Fabric, cells: seq<Word>, f: nat -> Word, lo: nat, hi: nat)
    requires fab.Valid() && |cells| == fab.cellCount && lo < hi <= |fab.wires|
    ensures Clean(fab, cells, f, lo, hi) <==> Load(fab, cells, lo) == f(lo) && Clean(fab, cells, f, lo + 1, hi)
    ensures Clean(fab, cells, f, hi, hi)
  {
    hide Load;
  }

  lemma {:induction false} WriteStrideRuns(job: Job, fab: Fabric, cells: seq<Word>, wk: Worker, stop: nat -> bool,
      t: nat)
    requires job.Valid(fab) && |cells| == fab.cellCount && Fits(job, wk.pc) && wk.pc.Writing? && !stop(t)
    ensures var next := WriteStride(job, fab, cells, wk);
      StepsToEnd(job, fab, cells, wk, stop, t) == StepsToEnd(job, fab, next.0, next.1, stop, t + 1)
  {
    hide StoreRange, FoldPressure, Load, Inject, StepsToEnd, EndWrite;
    StepsOnce(job, fab, cells, wk, stop, t);
    var p, done := wk.pc.p, wk.pc.done;
    var c := NextChunk(job.count, done);
    var first := wk.(pc := Storing(p, done, 0));
    StoresRun(job, fab, cells, first, stop, t + 1);
    var stored := WriteCells(job, fab, cells, p, done);
    var folded := wk.(pressure := ChunkPressure(job, fab, stored, wk.pressure, done));
    if job.cfg.mode.Extreme? {
      FoldsRun(job, fab, stored, first.(pc := Folding(p, done, 0)), stop, t + 1);
      SameEnd(job, folded, folded.(pc := Folding(p, done, 0)), p, done);
    } else {
      SameEnd(job, folded, first, p, done);
    }
    assert StepsToEnd(job, fab, cells, wk, stop, t)
        == StepsToEnd(job, fab, stored, EndWrite(job, folded, p, done), stop, t + 1);
    WriteEnds(job, fab, stored, folded, p, done, stop, t + 1);
  }

  /** The end of a write chunk, injection included. */
  lemma {:induction false} WriteEnds(job: Job, fab: Fabric, cells: seq<Word>, wk: Worker, p: nat, done: nat,
      stop: nat -> bool, t: nat)
    requires job.Valid(fab) && |cells| == fab.cellCount && p < |job.phases| && ChunkAt(job, done)
    ensures var c := NextChunk(job.count, done);
      var after := wk.(progress := wk.progress + 8 * c);
      StepsToEnd(job, fab, cells, EndWrite(job, wk, p, done), stop, t) ==
      if done + c < job.count then StepsToEnd(job, fab, cells, after.(pc := Writing(p, done + c)), stop, t)
      else StepsToEnd(job, fab, if job.cfg.inject then Inject(fab, cells, job.start) else cells,
             after.(pc := Verifying(p, 0), written := wk.written + 8 * job.count), stop, t)
  {
    hide Inject, StepsToEnd;
    var end := EndWrite(job, wk, p, done);
    if end.pc.Injecting? {
      StepsOnce(job, fab, cells, end, stop, t);
    }
  }

  lemma {:induction false} ErrorsRun(job: Job, fab: Fabric, cells: seq<Word>, wk: Worker, p: nat, done: nat,
      stop: nat -> bool, t: nat)
    requires job.Valid(fab) && |cells| == fab.cellCount && p < |job.phases| && ChunkAt(job, done)
    ensures StepsToEnd(job, fab, cells, EndErrors(job, wk, p, done), stop, t)
         == StepsToEnd(job, fab, cells,
              EndVerify(job, wk.(pressure := ChunkPressure(job, fab, cells, wk.pressure, done)), p, done), stop, t)
  {
    hide FoldPressure, Load, EndVerify, StepsToEnd;
    if job.cfg.mode.Extreme? {
      RefoldsRun(job, fab, cells, wk.(pc := Refolding(p, done, 0)), stop, t);
      var pressure := ChunkPressure(job, fab, cells, wk.pressure, done);
      SameEnd(job, wk.(pressure := pressure), wk.(pressure := pressure, pc := Refolding(p, done, 0)), p, done);
    }
  }

  lemma {:induction false} VerifyStrideRuns(job: Job, fab: Fabric, cells: seq<Word>, wk: Worker, stop: nat -> bool,
      t: nat)
    requires job.Valid(fab) && |cells| == fab.cellCount && Fits(job, wk.pc) && wk.pc.Verifying? && !stop(t)
    ensures StepsToEnd(job, fab, cells, wk, stop, t)
         == StepsToEnd(job, fab, cells, VerifyStride(job, fab, cells, wk), stop, t + 1)
  {
    hide ChunkLog, ChunkPressure, Load, Clean, EndErrors, EndVerify, StepsToEnd;
    StepsOnce(job, fab, cells, wk, stop, t);
    var p, done := wk.pc.p, wk.pc.done;
    var lo, c := job.start + done, NextChunk(job.count, done);
    var log := ChunkLog(fab, cells, job.cfg, job.phases[p], job.patterns[p], lo, lo + c);
    var logged := wk.(log := wk.log + log);
    CleanLogIsEmpty(fab, cells, job.cfg, job.phases[p], job.patterns[p], lo, lo + c);
    if !job.phases[p].Walking? {
      ScansRun(job, fab, cells, wk.(pc := Scanning(p, done, 0, false)), stop, t + 1);
    }
    RecordsRun(job, fab, cells, wk.(pc := Recording(p, done, 0)), stop, t + 1);
    SameEnd(job, logged, logged.(pc := Recording(p, done, 0)), p, done);
    if log == [] {
      assert wk.log + log == wk.log;
      if !job.phases[p].Walking? {
        SameEnd(job, logged, wk.(pc := Scanning(p, done, 0, false)), p, done);
      }
    }
    assert StepsToEnd(job, fab, cells, wk, stop, t)
        == StepsToEnd(job, fab, cells, EndErrors(job, logged, p, done), stop, t + 1);
    ErrorsRun(job, fab, cells, logged, p, done, stop, t + 1);
  }

  /** Run chunk by chunk or word by word, a worker alone comes to the same end. */
  lemma {:induction false} StridesAreSteps(job: Job, fab: Fabric, cells: seq<Word>, wk: Worker, stop: nat -> bool,
      t: nat)
    requires job.Valid(fab) && |cells| == fab.cellCount && Fits(job, wk.pc) && (Polls(wk.pc) || !Running(wk.pc))
    ensures StepsToEnd(job, fab, cells, wk, stop, t) == RunToEnd(job, fab, cells, wk, stop, t)
    decreases PhasesLeft(job, wk.pc), HalvesLeft(wk.pc), WordsLeft(job, wk.pc)
  {
    hide WriteStride, VerifyStride, WriteStep, VerifyStep, EnterVerify;
    if Running(wk.pc) {
      var next := Stride(job, fab, cells, wk, stop(t));
      StrideDescends(job, fab, cells, wk, stop(t));
      StridesAreSteps(job, fab, next.0, next.1, stop, t + 1);
      if !stop(t) {
        match wk.pc
        case AtPhase(_) =>
        case Writing(_, _) => WriteStrideRuns(job, fab, cells, wk, stop, t);
        case Verifying(_, _) => VerifyStrideRuns(job, fab, cells, wk, stop, t);
      }
    }
  }

  // ----- a lone run is one of the interleavings

  lemma {:induction false} ExecOneMore(jobs: seq<Job>, fab: Fabric, wd: World, evs: seq<Event>, ev: Event)
    requires Team(jobs, fab) && Shaped(jobs, fab, wd) && AllPossible(jobs, fab, evs) && Possible(jobs, fab, ev)
    ensures AllPossible(jobs, fab, evs + [ev])
    ensures Exec(jobs, fab, wd, evs + [ev]) == Happen(jobs, fab, Exec(jobs, fab, wd, evs), ev)
  {
    hide Happen;
    var all := evs + [ev];
    assert all[..|all| - 1] == evs;
  }

  /** From any point a one-worker team has reached, running on alone is running more events. */
  lemma {:induction false} LoneRunIsARun(job: Job, fab: Fabric, start: World, evs: seq<Event>, stop: nat -> bool,
      t: nat)
    requires Team([job], fab) && Shaped([job], fab, start) && AllPossible([job], fab, evs) && NoUpsets(evs)
    ensures var wd := Exec([job], fab, start, evs);
      var end := StepsToEnd(job, fab, wd.cells, wd.workers[0], stop, t);
      exists more :: AllPossible([job], fab, more) && NoUpsets(more)
        && Exec([job], fab, start, more).cells == end.0 && Exec([job], fab, start, more).workers == [end.1]
    decreases Fuel(job, Exec([job], fab, start, evs).workers[0].pc)
  {
    hide Step, DriftAfter, SeenAfter, Exec, Fuel;
    var wd := Exec([job], fab, start, evs);
    var wk := wd.workers[0];
    assert wd.workers == [wk];
    if Running(wk.pc) {
      var ev := Work(0, stop(t));
      ExecOneMore([job], fab, start, evs, ev);
      StepBurns(job, fab, wd.cells, wk, stop(t));
      LoneRunIsARun(job, fab, start, evs + [ev], stop, if Polls(wk.pc) then t + 1 else t);
    }
  }

  // ----- a lone run on any wiring

  lemma {:induction false} ChunkLogConcat(fab: Fabric, cells: seq<Word>, cfg: Config, phase: Phase, f: nat -> Word,
      lo: nat, mid: nat, hi: nat)
    requires fab.Valid() && |cells| == fab.cellCount && lo <= mid <= hi <= |fab.wires|
    ensures ChunkLog(fab, cells, cfg, phase, f, lo, hi)
         == ChunkLog(fab, cells, cfg, phase, f, lo, mid) + ChunkLog(fab, cells, cfg, phase, f, mid, hi)
    decreases hi
  {
    hide Load;
    if mid < hi {
      ChunkLogConcat(fab, cells, cfg, phase, f, lo, mid, hi - 1);
    }
  }

  /** The cells after the write halves of the first p phases. */
  function CellsAfter(job: Job, fab: Fabric, cells: seq<Word>, p: nat): (r: seq<Word>)
    requires job.Valid(fab) && |cells| == fab.cellCount && p <= |job.phases|
    ensures |r| == |cells|
  {
    if p == 0 then cells
    else StoreRange(fab, CellsAfter(job, fab, cells, p - 1), job.patterns[p - 1], job.start, job.start + job.count)
  }

  /** The errors phase p finds in the first d words, given the cells before the pass. */
  function FoundIn(job: Job, fab: Fabric, cells: seq<Word>, p: nat, d: nat): seq<ErrorRecord>
    requires job.Valid(fab) && |cells| == fab.cellCount && p < |job.phases| && d <= job.count
  {
    ChunkLog(fab, CellsAfter(job, fab, cells, p + 1), job.cfg, job.phases[p], job.patterns[p], job.start, job.start + d)
  }

  function FoundBefore(job: Job, fab: Fabric, cells: seq<Word>, p: nat): seq<ErrorRecord>
    requires job.Valid(fab) && |cells| == fab.cellCount && p <= |job.phases|
  {
    if p == 0 then [] else FoundBefore(job, fab, cells, p - 1) + FoundIn(job, fab, cells, p - 1, job.count)
  }

  lemma {:induction false} Unfolded(job: Job, fab: Fabric, cells: seq<Word>, p: nat)
    requires job.Valid(fab) && |cells| == fab.cellCount && p < |job.phases|
    ensures CellsAfter(job, fab, cells, p + 1)
         == StoreRange(fab, CellsAfter(job, fab, cells, p), job.patterns[p], job.start, job.start + job.count)
    ensures FoundBefore(job, fab, cells, p + 1)
      == FoundBefore(job, fab, cells, p) + FoundIn(job, fab, cells, p, job.count)
    ensures FoundBefore(job, fab, cells, p) + FoundIn(job, fab, cells, p, 0) == FoundBefore(job, fab, cells, p)
  {
    assert FoundIn(job, fab, cells, p, 0) == [];
  }

  /** Where a lone worker stands determines memory and log, whatever the wiring. */
  ghost predicate Alone(job: Job, fab: Fabric, initial: seq<Word>, cells: seq<Word>, pc: Pc, log: seq<ErrorRecord>)
    requires job.Valid(fab) && |initial| == |cells| == fab.cellCount && Fits(job, pc) && (Polls(pc) || !Running(pc))
  {
    match LastRunning(job, pc)
    case AtPhase(p) => cells == CellsAfter(job, fab, initial, p) && log == FoundBefore(job, fab, initial, p)
    case Writing(p, done) =>
      && cells == StoreRange(fab, CellsAfter(job, fab, initial, p), job.patterns[p], job.start, job.start + done)
      && log == FoundBefore(job, fab, initial, p)
    case Verifying(p, done) =>
      && cells == CellsAfter(job, fab, initial, p + 1)
      && log == FoundBefore(job, fab, initial, p) + FoundIn(job, fab, initial, p, done)
    case Finished =>
      cells == CellsAfter(job, fab, initial, |job.phases|) && log == FoundBefore(job, fab, initial, |job.phases|)
  }

  lemma {:induction false} StartsAlone(job: Job, fab: Fabric, cells: seq<Word>)
    requires job.Valid(fab) && |cells| == fab.cellCount
    ensures Alone(job, fab, cells, cells, Fresh(job).pc, Fresh(job).log)
  {}

  lemma {:induction false} EnterStaysAlone(job: Job, fab: Fabric, initial: seq<Word>, cells: seq<Word>, wk: Worker)
    requires job.Valid(fab) && |initial| == |cells| == fab.cellCount
    requires wk.pc.AtPhase? && Fits(job, wk.pc) && Alone(job, fab, initial, cells, wk.pc, wk.log)
    ensures Alone(job, fab, initial, cells, EnterPhase(job, wk).pc, wk.log)
  {
    hide CellsAfter, FoundBefore, FoundIn;
    Unfolded(job, fab, initial, wk.pc.p);
  }

  lemma {:induction false} WriteStaysAlone(job: Job, fab: Fabric, initial: seq<Word>, cells: seq<Word>, wk: Worker)
    requires job.Valid(fab) && |initial| == |cells| == fab.cellCount && !job.cfg.inject
    requires wk.pc.Writing? && Fits(job, wk.pc) && Alone(job, fab, initial, cells, wk.pc, wk.log)
    ensures var next := WriteStride(job, fab, cells, wk); Alone(job, fab, initial, next.0, next.1.pc, next.1.log)
  {
    hide ChunkPressure, StoreRange, CellsAfter, FoundBefore, FoundIn, Load;
    var p, done := wk.pc.p, wk.pc.done;
    var c := NextChunk(job.count, done);
    StoreRangeConcat(fab, CellsAfter(job, fab, initial, p), job.patterns[p], job.start, job.start + done,
      job.start + done + c);
    assert job.start + (done + c) == job.start + done + c;
    Unfolded(job, fab, initial, p);
  }

  lemma {:induction false} FoundMore(job: Job, fab: Fabric, initial: seq<Word>, p: nat, done: nat, c: nat)
    requires job.Valid(fab) && |initial| == fab.cellCount && p < |job.phases| && done + c <= job.count
    ensures var lo := job.start + done;
      FoundBefore(job, fab, initial, p) + FoundIn(job, fab, initial, p, done)
      + ChunkLog(fab, CellsAfter(job, fab, initial, p + 1), job.cfg, job.phases[p], job.patterns[p], lo, lo + c)
      == FoundBefore(job, fab, initial, p) + FoundIn(job, fab, initial, p, done + c)
  {
    hide ChunkLog, CellsAfter, FoundBefore, Load;
    var lo, cells := job.start + done, CellsAfter(job, fab, initial, p + 1);
    ChunkLogConcat(fab, cells, job.cfg, job.phases[p], job.patterns[p], job.start, lo, lo + c);
    assert job.start + (done + c) == lo + c;
  }

  lemma {:induction false} VerifyStaysAlone(job: Job, fab: Fabric, initial: seq<Word>, cells: seq<Word>, wk: Worker)
    requires job.Valid(fab) && |initial| == |cells| == fab.cellCount
    requires wk.pc.Verifying? && Fits(job, wk.pc) && Alone(job, fab, initial, cells, wk.pc, wk.log)
    ensures var next := VerifyStride(job, fab, cells, wk); Alone(job, fab, initial, cells, next.pc, next.log)
  {
    hide ChunkPressure, ChunkLog, CellsAfter, FoundBefore, FoundIn, Load;
    var p, done := wk.pc.p, wk.pc.done;
    FoundMore(job, fab, initial, p, done, NextChunk(job.count, done));
    Unfolded(job, fab, initial, p);
  }

  lemma {:induction false} LoneRunStaysAlone(job: Job, fab: Fabric, initial: seq<Word>, cells: seq<Word>, wk: Worker,
      stop: nat -> bool, t: nat)
    requires job.Valid(fab) && |initial| == |cells| == fab.cellCount && !job.cfg.inject
    requires Fits(job, wk.pc) && (Polls(wk.pc) || !Running(wk.pc)) && Alone(job, fab, initial, cells, wk.pc, wk.log)
    ensures var end := RunToEnd(job, fab, cells, wk, stop, t); Alone(job, fab, initial, end.0, end.1.pc, end.1.log)
    decreases PhasesLeft(job, wk.pc), HalvesLeft(wk.pc), WordsLeft(job, wk.pc)
  {
    hide WriteStride, VerifyStride, CellsAfter, FoundBefore, FoundIn;
    if Running(wk.pc) {
      var next := Stride(job, fab, cells, wk, stop(t));
      if !stop(t) {
        match wk.pc
        case AtPhase(_) => EnterStaysAlone(job, fab, initial, cells, wk);
        case Writing(_, _) => WriteStaysAlone(job, fab, initial, cells, wk);
        case Verifying(_, _) => VerifyStaysAlone(job, fab, initial, cells, wk);
      }
      StrideDescends(job, fab, cells, wk, stop(t));
      LoneRunStaysAlone(job, fab, initial, next.0, next.1, stop, t + 1);
    }
  }
}
