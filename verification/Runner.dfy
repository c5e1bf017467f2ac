/**
 `nxmt_runner_run_pass` and its two phase loops, statement by statement over a mutable arena, report,
 statistics and progress counter, proved to compute the lone run of the state machine.
 */
module Runner {
  import opened Words
  import opened Patterns
  import opened Reports
  import opened Arenas
  import opened Memories
  import opened ChunkWrite
  import opened ChunkVerify
  import opened Machine
  import opened Findings
  import opened Progress
  import opened Crews
  import opened Solo

  datatype Status = Pass | Fail | Aborted | Unsupported

  /** An atomic 64-bit counter. */
  class Counter {
    var value: nat

    constructor ()
      ensures value == 0
    {
      value := 0;
    }

    method FetchAdd(delta: nat)
      modifies this
      ensures value == U64(old(value) + delta)
    {
      value := U64(value + delta);
    }
  }

  /** `NxmtRunStats` */
  class Stats {
    var bytesWritten: nat
    var bytesVerified: nat
    var pressureChecksum: Word
    var currentPhase: Phase

    constructor ()
      ensures bytesWritten == bytesVerified == 0 && pressureChecksum == 0 && currentPhase == FixedA
    {
      bytesWritten, bytesVerified, pressureChecksum, currentPhase := 0, 0, 0, FixedA;
    }
  }

  /** `NxmtRunConfig`: plain data, what each poll of the stop flag reads (None for no flag), and the shared counter. */
  datatype RunConfig = RunConfig(plain: Config, stop: Option<nat -> bool>, progress: Counter?)

  /** Poll t of the stop flag. */
  function Schedule(stop: Option<nat -> bool>): nat -> bool {
    (t: nat) => stop.Some? && stop.value(t)
  }

  // ----- the run a method is in the middle of

  /** The lone run being computed, and how it ends. */
  datatype Plan = Plan(job: Job, fab: Fabric, stop: nat -> bool, end: (seq<Word>, Worker))

  /** From these cells, this worker and this poll, the run ends as planned. */
  ghost predicate Leads(plan: Plan, cells: seq<Word>, wk: Worker, t: nat) {
    && plan.job.Valid(plan.fab) && |cells| == plan.fab.cellCount && Fits(plan.job, wk.pc)
    && (Polls(wk.pc) || !Running(wk.pc))
    && RunToEnd(plan.job, plan.fab, cells, wk, plan.stop, t) == plan.end
  }

  lemma {:induction false} LeadsOn(plan: Plan, cells: seq<Word>, wk: Worker, t: nat)
    requires Leads(plan, cells, wk, t) && Running(wk.pc)
    ensures var next := Stride(plan.job, plan.fab, cells, wk, plan.stop(t));
      Leads(plan, next.0, next.1, t + 1)
  {
    hide Stride;
  }

  lemma {:induction false} LeadsFits(plan: Plan, cells: seq<Word>, wk: Worker, t: nat)
    requires Leads(plan, cells, wk, t)
    ensures Fits(plan.job, wk.pc) && (Polls(wk.pc) || !Running(wk.pc))
  {
    hide RunToEnd;
  }

  lemma {:induction false} LeadsEnds(plan: Plan, cells: seq<Word>, wk: Worker, t: nat)
    requires Leads(plan, cells, wk, t) && !Running(wk.pc)
    ensures plan.end == (cells, wk)
  {}

  /** The job is the one this configuration asks for. */
  ghost predicate Serves(plan: Plan, mem: Memory, plain: Config) {
    && plan.fab == mem.fabric && plan.job.Valid(plan.fab) && plan.job.cfg == plain && plan.job.press == Pressure
    && forall p :: 0 <= p < |plan.job.phases| ==>
         plan.job.patterns[p] == Pattern(plain.seed, plan.job.phases[p], plain.pass)
  }

  ghost predicate Counts(progress: Counter?, base: nat, n: nat)
    reads progress
  {
    progress != null ==> progress.value == U64(base + n)
  }

  /** `nxmt_progress_add` */
  method AddProgress(progress: Counter?, delta: nat, ghost base: nat, ghost n: nat)
    requires Counts(progress, base, n)
    modifies progress
    ensures Counts(progress, base, n + delta)
  {
    if progress != null && delta != 0 {
      U64Wrap(base + n, delta);
      progress.FetchAdd(delta);
    }
  }

  /** The loop that folds a chunk into the pressure state. */
  method FoldChunk(mem: Memory, lo: nat, n: nat, state: Word) returns (r: Word)
    requires mem.Valid() && lo + n <= |mem.fabric.wires|
    ensures r == FoldPressure(mem.fabric, mem.cells, Pressure, state, lo, lo + n)
  {
    hide Load, Pressure, Xor;
    r := state;
    for k := 0 to n
      invariant r == FoldPressure(mem.fabric, mem.cells, Pressure, state, lo, lo + k)
    {
      var v := mem.Read(lo + k);
      r := ExtremeCpuPressure(r, v);
    }
  }

  // ----- the write half

  /** One iteration of the write loop, between two polls. */
  method WriteOneChunk(mem: Memory, start: nat, done: nat, chunk: nat, phase: Phase, neon: bool, rc: RunConfig,
      pressure: Word, ghost plan: Plan, ghost p: nat, ghost base: nat, ghost n: nat) returns (r: Word)
    requires mem.Valid() && Serves(plan, mem, rc.plain) && p < |plan.job.phases| && phase == plan.job.phases[p]
    requires start == plan.job.start && done < plan.job.count && chunk == NextChunk(plan.job.count, done)
    requires Counts(rc.progress, base, n)
    modifies mem, rc.progress
    ensures mem.Valid() && mem.cells == WriteCells(plan.job, plan.fab, old(mem.cells), p, done)
    ensures r == if rc.plain.mode.Extreme?
      then FoldPressure(plan.fab, mem.cells, plan.job.press, pressure, start + done, start + done + chunk) else pressure
    ensures Counts(rc.progress, base, n + 8 * chunk)
  {
    hide Pattern, StoreRange, FoldPressure, Counts;
    WriteChunk(mem, start + done, chunk, phase, rc.plain.seed, rc.plain.pass, neon);
    r := pressure;
    if rc.plain.mode.Extreme? {
      r := FoldChunk(mem, start + done, chunk, pressure);
    }
    AddProgress(rc.progress, chunk * WORD_BYTES, base, n);
  }

  /** After `done` words of the write half; once it is complete the injection is still to come. */
  ghost predicate WroteUpTo(plan: Plan, cells: seq<Word>, from: Worker, wk: Worker, t: nat, p: nat, done: nat) {
    var job := plan.job;
    && job.Valid(plan.fab) && |cells| == plan.fab.cellCount && done <= job.count
    && wk.log == from.log && wk.verified == from.verified && wk.current == from.current
    && if job.count == 0 then wk == from && Leads(plan, cells, wk, t)
       else if done < job.count then
         wk.pc == Writing(p, done) && wk.written == from.written && Leads(plan, cells, wk, t)
       else
         && wk.pc == Verifying(p, 0) && wk.written == from.written + 8 * job.count
         && Leads(plan, if job.cfg.inject then Inject(plan.fab, cells, job.start) else cells, wk, t)
  }

  lemma {:induction false} WroteOneChunk(plan: Plan, cells: seq<Word>, from: Worker, wk: Worker, t: nat, p: nat,
      done: nat, cells': seq<Word>, pressure: Word) returns (wk': Worker)
    requires done < plan.job.count && WroteUpTo(plan, cells, from, wk, t, p, done) && !plan.stop(t)
    requires p < |plan.job.phases| && cells' == WriteCells(plan.job, plan.fab, cells, p, done)
    requires var lo, c := plan.job.start + done, NextChunk(plan.job.count, done);
      pressure == if plan.job.cfg.mode.Extreme?
        then FoldPressure(plan.fab, cells', plan.job.press, wk.pressure, lo, lo + c) else wk.pressure
    ensures WroteUpTo(plan, cells', from, wk', t + 1, p, done + NextChunk(plan.job.count, done))
    ensures wk'.pressure == pressure && wk'.progress == wk.progress + 8 * NextChunk(plan.job.count, done)
  {
    hide Leads, WriteCells, FoldPressure, Inject;
    LeadsFits(plan, cells, wk, t);
    LeadsOn(plan, cells, wk, t);
    wk' := Stride(plan.job, plan.fab, cells, wk, false).1;
  }

  lemma {:induction false} StoppedHere(plan: Plan, cells: seq<Word>, wk: Worker, t: nat)
    requires Leads(plan, cells, wk, t) && Running(wk.pc) && plan.stop(t)
    ensures Leads(plan, cells, wk.(pc := Stopped(wk.pc)), t + 1)
  {
    hide RunToEnd;
    assert Leads(plan, cells, wk.(pc := Stopped(wk.pc)), t + 1) by { LeadsOn(plan, cells, wk, t); }
  }

  /** What both phase loops promise. */
  ghost predicate HalfDone(plan: Plan, cells: seq<Word>, ok: bool, from: Worker, wk: Worker, t: nat, next: Pc) {
    && Leads(plan, cells, wk, t) && wk.current == from.current
    && (ok && plan.job.count == 0 ==> wk == from)
    && (ok && plan.job.count > 0 ==> wk.pc == next)
    && (!ok ==> wk.pc.Stopped? && wk.written == from.written && wk.verified == from.verified)
  }

  /** `nxmt_write_phase` */
  method WritePhase(mem: Memory, start: nat, count: nat, phase: Phase, neon: bool, rc: RunConfig, pressure0: Word,
      poll0: nat, ghost plan: Plan, ghost p: nat, ghost base: nat, ghost from: Worker)
      returns (ok: bool, pressure: Word, poll: nat, ghost wk: Worker)
    requires mem.Valid() && Serves(plan, mem, rc.plain) && plan.stop == Schedule(rc.stop)
    requires p < |plan.job.phases| && phase == plan.job.phases[p] && start == plan.job.start && count == plan.job.count
    requires Leads(plan, mem.cells, from, poll0) && (count > 0 ==> from.pc == Writing(p, 0))
    requires from.pressure == pressure0 && Counts(rc.progress, base, from.progress)
    modifies mem, rc.progress
    ensures mem.Valid() && HalfDone(plan, mem.cells, ok, from, wk, poll, Verifying(p, 0)) && wk.log == from.log
    ensures ok ==> wk.written == from.written + 8 * count && wk.verified == from.verified
    ensures wk.pressure == pressure && Counts(rc.progress, base, wk.progress)
  {
    hide Leads, Counts, Serves, Schedule, Load;
    ServesConfig(plan, mem, rc.plain);
    var processed: nat := 0;
    ok, pressure, poll, wk := true, pressure0, poll0, from;
    while processed < count
      invariant mem.Valid() && processed <= count
      invariant WroteUpTo(plan, mem.cells, from, wk, poll, p, processed)
      invariant wk.pressure == pressure && Counts(rc.progress, base, wk.progress)
    {
      var stopNow := Schedule(rc.stop)(poll);
      if stopNow {
        StoppedHere(plan, mem.cells, wk, poll);
        wk := wk.(pc := Stopped(wk.pc));
        return false, pressure, poll + 1, wk;
      }
      var chunk := CHUNK;
      if processed + chunk > count {
        chunk := count - processed;
      }
      ghost var before := mem.cells;
      pressure := WriteOneChunk(mem, start, processed, chunk, phase, neon, rc, pressure, plan, p, base, wk.progress);
      wk := WroteOneChunk(plan, before, from, wk, poll, p, processed, mem.cells, pressure);
      processed := processed + chunk;
      poll := poll + 1;
    }
    if rc.plain.inject && count > 0 {
      InjectWord(mem, start, plan, rc.plain);
    }
  }

  lemma {:induction false} ServesConfig(plan: Plan, mem: Memory, plain: Config)
    requires Serves(plan, mem, plain)
    ensures plan.job.cfg == plain && plan.fab == mem.fabric && plan.job.Valid(plan.fab)
  {}

  /** `write_base[0] ^= 0x100` */
  method InjectWord(mem: Memory, w: nat, ghost plan: Plan, ghost plain: Config)
    requires mem.Valid() && Serves(plan, mem, plain) && w == plan.job.start && plan.job.count > 0
    modifies mem
    ensures mem.Valid() && mem.cells == Inject(plan.fab, old(mem.cells), w)
  {
    var v := mem.Read(w);
    mem.Write(w, Xor(v, INJECTED));
  }

  // ----- the verify half

  method VerifyOneChunk(mem: Memory, start: nat, done: nat, chunk: nat, phase: Phase, neon: bool, rc: RunConfig,
      report: Report, pressure: Word, ghost plan: Plan, ghost p: nat, ghost base: nat, ghost n: nat) returns (r: Word)
    requires mem.Valid() && Serves(plan, mem, rc.plain) && p < |plan.job.phases| && phase == plan.job.phases[p]
    requires start == plan.job.start && done < plan.job.count && chunk == NextChunk(plan.job.count, done)
    requires Counts(rc.progress, base, n)
    modifies report, rc.progress
    ensures report.Contents() == RecordAll(old(report.Contents()),
      ChunkLog(plan.fab, mem.cells, plan.job.cfg, phase, plan.job.patterns[p], start + done, start + done + chunk))
    ensures r == if rc.plain.mode.Extreme?
      then FoldPressure(plan.fab, mem.cells, plan.job.press, pressure, start + done, start + done + chunk) else pressure
    ensures Counts(rc.progress, base, n + 8 * chunk)
  {
    hide Pattern, ChunkLog, RecordAll, FoldPressure, Counts;
    VerifyChunk(mem, start + done, chunk, phase, rc.plain, neon, report);
    r := pressure;
    if rc.plain.mode.Extreme? {
      r := FoldChunk(mem, start + done, chunk, pressure);
    }
    AddProgress(rc.progress, chunk * WORD_BYTES, base, n);
  }

  ghost predicate VerifiedUpTo(plan: Plan, cells: seq<Word>, from: Worker, wk: Worker, t: nat, p: nat, done: nat) {
    var job := plan.job;
    && job.Valid(plan.fab) && |cells| == plan.fab.cellCount && done <= job.count && Leads(plan, cells, wk, t)
    && wk.written == from.written && wk.current == from.current
    && if job.count == 0 then wk == from
       else if done < job.count then wk.pc == Verifying(p, done) && wk.verified == from.verified
       else wk.pc == AfterPhase(job, p) && wk.verified == from.verified + 8 * job.count
  }

  lemma {:induction false} VerifiedOneChunk(plan: Plan, cells: seq<Word>, from: Worker, wk: Worker, t: nat, p: nat,
      done: nat, before: Summary, after: Summary, log0: seq<ErrorRecord>, pressure: Word) returns (wk': Worker)
    requires done < plan.job.count && VerifiedUpTo(plan, cells, from, wk, t, p, done) && !plan.stop(t)
    requires p < |plan.job.phases|
    requires var lo, c := plan.job.start + done, NextChunk(plan.job.count, done);
      && (pressure == if plan.job.cfg.mode.Extreme?
        then FoldPressure(plan.fab, cells, plan.job.press, wk.pressure, lo, lo + c) else wk.pressure)
      && after == RecordAll(RecordAll(before, wk.log),
           ChunkLog(plan.fab, cells, plan.job.cfg, plan.job.phases[p], plan.job.patterns[p], lo, lo + c))
    ensures VerifiedUpTo(plan, cells, from, wk', t + 1, p, done + NextChunk(plan.job.count, done))
    ensures wk'.pressure == pressure && wk'.progress == wk.progress + 8 * NextChunk(plan.job.count, done)
    ensures after == RecordAll(before, wk'.log)
  {
    hide Leads, FoldPressure, ChunkLog, RecordAll;
    LeadsFits(plan, cells, wk, t);
    LeadsOn(plan, cells, wk, t);
    wk' := Stride(plan.job, plan.fab, cells, wk, false).1;
    var lo, c := plan.job.start + done, NextChunk(plan.job.count, done);
    RecordAllConcat(before, wk.log,
      ChunkLog(plan.fab, cells, plan.job.cfg, plan.job.phases[p], plan.job.patterns[p], lo, lo + c));
  }

  /** `nxmt_verify_phase` */
  method VerifyPhase(mem: Memory, start: nat, count: nat, phase: Phase, neon: bool, rc: RunConfig, report: Report,
      pressure0: Word, poll0: nat, ghost plan: Plan, ghost p: nat, ghost base: nat, ghost before: Summary,
      ghost from: Worker)
      returns (ok: bool, pressure: Word, poll: nat, ghost wk: Worker)
    requires mem.Valid() && Serves(plan, mem, rc.plain) && plan.stop == Schedule(rc.stop)
    requires p < |plan.job.phases| && phase == plan.job.phases[p] && start == plan.job.start && count == plan.job.count
    requires Leads(plan, mem.cells, from, poll0) && (count > 0 ==> from.pc == Verifying(p, 0))
    requires from.pressure == pressure0 && Counts(rc.progress, base, from.progress)
    requires report.Contents() == RecordAll(before, from.log)
    modifies report, rc.progress
    ensures HalfDone(plan, mem.cells, ok, from, wk, poll, AfterPhase(plan.job, p))
    ensures ok ==> wk.verified == from.verified + 8 * count && wk.written == from.written
    ensures wk.pressure == pressure && Counts(rc.progress, base, wk.progress)
    ensures report.Contents() == RecordAll(before, wk.log)
  {
    hide Leads, Counts, Serves, Schedule, RecordAll, ChunkLog, FoldPressure;
    ServesConfig(plan, mem, rc.plain);
    var processed: nat := 0;
    ok, pressure, poll, wk := true, pressure0, poll0, from;
    while processed < count
      invariant processed <= count
      invariant VerifiedUpTo(plan, mem.cells, from, wk, poll, p, processed)
      invariant wk.pressure == pressure && Counts(rc.progress, base, wk.progress)
      invariant report.Contents() == RecordAll(before, wk.log)
    {
      var stopNow := Schedule(rc.stop)(poll);
      if stopNow {
        StoppedHere(plan, mem.cells, wk, poll);
        wk := wk.(pc := Stopped(wk.pc));
        return false, pressure, poll + 1, wk;
      }
      var chunk := CHUNK;
      if processed + chunk > count {
        chunk := count - processed;
      }
      pressure := VerifyOneChunk(mem, start, processed, chunk, phase, neon, rc, report, pressure, plan, p, base,
        wk.progress);
      wk := VerifiedOneChunk(plan, mem.cells, from, wk, poll, p, processed, before, report.Contents(), wk.log,
        pressure);
      processed := processed + chunk;
      poll := poll + 1;
    }
  }

  // ----- logs never reach the 64-bit limit

  /** A worker logs at most one error per word and phase. */
  ghost predicate LogBounded(job: Job, wk: Worker)
    requires Fits(job, wk.pc)
  {
    |wk.log| <= VerifiesDone(job, wk.pc) * job.count + VerifiedWords(wk.pc)
  }

  function VerifiedWords(pc: Pc): nat {
    match pc
    case Verifying(_, done) => done
    case Stopped(at) => VerifiedWords(at)
    case _ => 0
  }

  lemma {:induction false} ChunkLogShort(fab: Fabric, cells: seq<Word>, cfg: Config, phase: Phase, f: nat -> Word,
      lo: nat, hi: nat)
    requires fab.Valid() && |cells| == fab.cellCount && lo <= hi <= |fab.wires|
    ensures |ChunkLog(fab, cells, cfg, phase, f, lo, hi)| <= hi - lo
    decreases hi
  {
    hide Load;
    if lo < hi {
      ChunkLogShort(fab, cells, cfg, phase, f, lo, hi - 1);
    }
  }

  lemma {:induction false} StrideLogBounded(job: Job, fab: Fabric, cells: seq<Word>, wk: Worker, stop: bool)
    requires job.Valid(fab) && |cells| == fab.cellCount && Polls(wk.pc) && Fits(job, wk.pc) && LogBounded(job, wk)
    ensures LogBounded(job, Stride(job, fab, cells, wk, stop).1)
  {
    hide FoldPressure, ChunkLog, Load, Inject, WriteCells;
    if !stop {
      OneMoreHalf(wk.pc.p, job.count);
      if wk.pc.Verifying? {
        var lo := job.start + wk.pc.done;
        ChunkLogShort(fab, cells, job.cfg, job.phases[wk.pc.p], job.patterns[wk.pc.p], lo,
          lo + NextChunk(job.count, wk.pc.done));
      }
    }
  }

  lemma {:induction false} RunLogBounded(job: Job, fab: Fabric, cells: seq<Word>, wk: Worker, stop: nat -> bool, t: nat)
    requires job.Valid(fab) && |cells| == fab.cellCount && Fits(job, wk.pc) && (Polls(wk.pc) || !Running(wk.pc))
    requires LogBounded(job, wk)
    ensures LogBounded(job, RunToEnd(job, fab, cells, wk, stop, t).1)
    decreases PhasesLeft(job, wk.pc), HalvesLeft(wk.pc), WordsLeft(job, wk.pc)
  {
    hide Stride, LogBounded;
    if Running(wk.pc) {
      var next := Stride(job, fab, cells, wk, stop(t));
      StrideLogBounded(job, fab, cells, wk, stop(t));
      StrideDescends(job, fab, cells, wk, stop(t));
      RunLogBounded(job, fab, next.0, next.1, stop, t + 1);
    }
  }

  lemma {:induction false} BoundedLogFits(job: Job, fab: Fabric, wk: Worker)
    requires job.Valid(fab) && Fits(job, wk.pc) && (Polls(wk.pc) || !Running(wk.pc)) && LogBounded(job, wk)
    ensures |wk.log| < TWO64
  {
    var pc := LastRunning(job, wk.pc);
    var n, c := |job.phases|, job.count;
    assert |wk.log| <= VerifiesDone(job, pc) * c + VerifiedWords(pc);
    match pc
    case AtPhase(p) => PartOfPass(p, 0, n, c);
    case Writing(p, _) => PartOfPass(p, 0, n, c);
    case Verifying(p, done) => PartOfPass(p, done, n, c);
    case Finished =>
      PartOfPass(n - 1, c, n, c);
      assert |wk.log| <= n * c;
  }

  lemma PartOfPass(p: nat, done: nat, n: nat, c: nat)
    requires p < n <= 8 && done <= c < MAX_WORDS
    ensures p * c + done < TWO64
    ensures done == c ==> p * c + done == (p + 1) * c
  {
    MulMonotone(p, 7, c);
    OneMoreHalf(p, c);
  }

  /** The log of a lone pass fits in the report's counter. */
  lemma {:induction false} PassLogFits(job: Job, fab: Fabric, cells: seq<Word>, stop: nat -> bool)
    requires job.Valid(fab) && |cells| == fab.cellCount
    ensures |RunToEnd(job, fab, cells, Fresh(job), stop, 0).1.log| < TWO64
  {
    hide RunToEnd;
    RunLogBounded(job, fab, cells, Fresh(job), stop, 0);
    BoundedLogFits(job, fab, RunToEnd(job, fab, cells, Fresh(job), stop, 0).1);
  }

  // ----- the pass

  /** What a pass returns, given how its run ended. */
  function Verdict(end: Worker): Status {
    if end.log != [] then Fail else if end.pc.Finished? then Pass else Aborted
  }

  predicate Supported(arena: Option<Arena>, config: Option<RunConfig>, report: Report?) {
    && arena.Some? && config.Some? && report != null
    && arena.value.base != 0 && arena.value.words != 0 && arena.value.base % 8 == 0
    && config.value.plain.workerId < config.value.plain.workerCount
  }

  /** The counter of a configuration, if there are both. */
  function ProgressOf(config: Option<RunConfig>): Counter? {
    if config.Some? then config.value.progress else null
  }

  /** `nxmt_runner_abort_status` */
  method AbortStatus(report: Report, initialErrors: nat, ghost before: Summary,
      ghost wk: Worker) returns (status: Status)
    requires before.errorCount == initialErrors < TWO64 && |wk.log| < TWO64 && wk.pc.Stopped?
    requires report.Contents() == RecordAll(before, wk.log)
    ensures status == Verdict(wk)
  {
    CountMoved(before, wk.log);
    status := if report.errorCount != initialErrors then Fail else Aborted;
  }

  lemma {:induction false} CountMoved(before: Summary, log: seq<ErrorRecord>)
    requires before.errorCount < TWO64 && |log| < TWO64
    ensures RecordAll(before, log).errorCount != before.errorCount <==> log != []
  {
    hide RecordAll;
    RecordAllCount(before, log);
  }

  /** The statistics agree with the worker. */
  ghost predicate Shows(stats: Stats, wk: Worker)
    reads stats`bytesWritten, stats`bytesVerified, stats`currentPhase
  {
    stats.bytesWritten == U64(wk.written) && stats.bytesVerified == U64(wk.verified) && stats.currentPhase == wk.current
  }

  /** The report and the counter agree with the worker. */
  ghost predicate Reflects(report: Report, rc: RunConfig, wk: Worker, before: Summary, base: nat)
    reads report, rc.progress
  {
    report.Contents() == RecordAll(before, wk.log) && Counts(rc.progress, base, wk.progress)
  }

  datatype Outcome = Done | StoppedEarly

  /** One phase of the pass: poll, write half, verify half. */
  method RunPhase(mem: Memory, start: nat, count: nat, phase: Phase, neon: bool, rc: RunConfig, report: Report,
      stats: Stats,
      pressure0: Word, poll0: nat, ghost plan: Plan, ghost p: nat, ghost base: nat, ghost before: Summary,
      ghost from: Worker)
      returns (outcome: Outcome, pressure: Word, poll: nat, ghost wk: Worker)
    requires mem.Valid() && Serves(plan, mem, rc.plain) && plan.stop == Schedule(rc.stop)
    requires p < |plan.job.phases| && phase == plan.job.phases[p] && start == plan.job.start && count == plan.job.count
    requires Leads(plan, mem.cells, from, poll0) && from.pc == AtPhase(p)
    requires from.pressure == pressure0 && Reflects(report, rc, from, before, base) && Shows(stats, from)
    modifies mem, report, stats, rc.progress
    ensures mem.Valid() && Leads(plan, mem.cells, wk, poll)
    ensures if outcome.Done? then wk.pc == AfterPhase(plan.job, p) else wk.pc.Stopped?
    ensures wk.pressure == pressure && Reflects(report, rc, wk, before, base) && Shows(stats, wk)
    ensures stats.pressureChecksum == old(stats.pressureChecksum)
  {
    hide Leads, Counts, Serves, Schedule, RecordAll, Stride, U64;
    ServesConfig(plan, mem, rc.plain);
    pressure, poll, wk := pressure0, poll0, from;
    var stopNow := Schedule(rc.stop)(poll);
    if stopNow {
      StoppedHere(plan, mem.cells, wk, poll);
      wk := wk.(pc := Stopped(wk.pc));
      return StoppedEarly, pressure, poll + 1, wk;
    }
    wk := Entered(plan, mem.cells, wk, poll);
    poll := poll + 1;
    stats.currentPhase := phase;
    var ok;
    ok, pressure, poll, wk := WritePhase(mem, start, count, phase, neon, rc, pressure, poll, plan, p, base, wk);
    if !ok {
      return StoppedEarly, pressure, poll, wk;
    }
    U64Wrap(from.written, count * WORD_BYTES);
    U64Wrap(from.verified, count * WORD_BYTES);
    stats.bytesWritten := U64(stats.bytesWritten + count * WORD_BYTES);
    ok, pressure, poll, wk := VerifyPhase(mem, start, count, phase, neon, rc, report, pressure, poll, plan, p, base,
      before, wk);
    if !ok {
      return StoppedEarly, pressure, poll, wk;
    }
    stats.bytesVerified := U64(stats.bytesVerified + count * WORD_BYTES);
    outcome := Done;
  }

  lemma {:induction false} Entered(plan: Plan, cells: seq<Word>, wk: Worker, t: nat) returns (wk': Worker)
    requires Leads(plan, cells, wk, t) && wk.pc.AtPhase? && !plan.stop(t)
    ensures Leads(plan, cells, wk', t + 1)
    ensures var p := wk.pc.p;
      p < |plan.job.phases|
      && wk' == wk.(pc := if plan.job.count == 0 then AfterPhase(plan.job, p) else Writing(p, 0),
                    current := plan.job.phases[p])
  {
    hide RunToEnd;
    LeadsOn(plan, cells, wk, t);
    wk' := EnterPhase(plan.job, wk);
  }

  function ValueOf(progress: Counter?): nat
    reads progress
  {
    if progress == null then 0 else progress.value
  }

  /** How a supported pass ends, as the state machine runs it. */
  ghost function PassEnd(plain: Config, fab: Fabric, cells: seq<Word>, stop: nat -> bool): (r: (seq<Word>, Worker))
    requires fab.Valid() && |cells| == fab.cellCount && plain.workerId < plain.workerCount
    ensures !Running(r.1.pc) && |r.1.log| < TWO64
  {
    var job := JobOn(plain, fab);
    PassLogFits(job, fab, cells, stop);
    RunToEnd(job, fab, cells, Fresh(job), stop, 0)
  }

  lemma {:induction false} PassEndIs(plain: Config, fab: Fabric, cells: seq<Word>, stop: nat -> bool)
    requires fab.Valid() && |cells| == fab.cellCount && plain.workerId < plain.workerCount
    ensures var job := JobOn(plain, fab);
      PassEnd(plain, fab, cells, stop) == RunToEnd(job, fab, cells, Fresh(job), stop, 0)
  {}

  lemma {:induction false} PassPlan(plain: Config, mem: Memory, cells: seq<Word>,
      stop: nat -> bool) returns (plan: Plan)
    requires mem.fabric.Valid() && |cells| == mem.fabric.cellCount && plain.workerId < plain.workerCount
    ensures plan.end == PassEnd(plain, mem.fabric, cells, stop)
    ensures plan.job == JobFor(plain, |mem.fabric.wires|) && plan.stop == stop
    ensures Serves(plan, mem, plain) && Leads(plan, cells, Fresh(plan.job), 0)
  {
    hide RunToEnd;
    SliceFits(plain, mem.fabric);
    plan := Plan(JobFor(plain, |mem.fabric.wires|), mem.fabric, stop, PassEnd(plain, mem.fabric, cells, stop));
  }

  lemma {:induction false} FreshReflects(report: Report, rc: RunConfig, wk: Worker, stats: Stats)
    requires wk.log == [] && wk.progress == wk.written == wk.verified == 0 && wk.current == FixedA
    requires rc.progress != null ==> rc.progress.value < TWO64
    requires stats.bytesWritten == stats.bytesVerified == 0 && stats.currentPhase == FixedA
    ensures Reflects(report, rc, wk, report.Contents(), ValueOf(rc.progress)) && Shows(stats, wk)
  {}

  /**
   `nxmt_runner_run_pass`. Bad arguments are refused without touching memory or report; otherwise memory,
   report, statistics, counter and status are those of the lone run.
   */
  method RunPass(mem: Memory, arena: Option<Arena>, config: Option<RunConfig>, report: Report?, stats: Stats?,
      neon: bool)
      returns (status: Status)
    requires mem.Valid() && (arena.Some? ==> arena.value.words == |mem.fabric.wires|)
    requires report != null ==> report.errorCount < TWO64
    requires ValueOf(ProgressOf(config)) < TWO64
    modifies mem, report, stats, ProgressOf(config)
    ensures mem.Valid()
    ensures stats == null || !Supported(arena, config, report) ==>
      && status == Unsupported && mem.cells == old(mem.cells)
      && (report != null ==> report.Contents() == old(report.Contents()))
      && ValueOf(ProgressOf(config)) == old(ValueOf(ProgressOf(config)))
      && (stats != null ==> stats.bytesWritten == stats.bytesVerified == 0 && stats.pressureChecksum == 0
                            && stats.currentPhase == FixedA)
    ensures status == Unsupported <==>
      stats == null || arena.None? || config.None? || report == null || arena.value.base == 0 || arena.value.words == 0
      || arena.value.base % 8 != 0 || config.value.plain.workerId >= config.value.plain.workerCount
    ensures stats != null && Supported(arena, config, report) ==>
      var rc := config.value;
      var end := PassEnd(rc.plain, mem.fabric, old(mem.cells), Schedule(rc.stop));
      && mem.cells == end.0 && status == Verdict(end.1)
      && Reflects(report, rc, end.1, old(report.Contents()), old(ValueOf(rc.progress)))
      && Shows(stats, end.1) && stats.pressureChecksum == end.1.pressure
      && report.Contents() == RecordAll(old(report.Contents()), end.1.log)
      && stats.bytesWritten == U64(end.1.written) && stats.bytesVerified == U64(end.1.verified)
      && stats.currentPhase == end.1.current
      && (rc.progress != null ==> rc.progress.value == U64(old(ValueOf(rc.progress)) + end.1.progress))
  {
    if stats == null {
      return Unsupported;
    }
    stats.bytesWritten := 0;
    stats.bytesVerified := 0;
    stats.pressureChecksum := 0;
    stats.currentPhase := FixedA;
    if arena.None? || config.None? || report == null {
      return Unsupported;
    }
    var plain := config.value.plain;
    if arena.value.base == 0 || arena.value.words == 0
      || plain.workerCount == 0 || plain.workerId >= plain.workerCount
    {
      return Unsupported;
    }
    if arena.value.base % 8 != 0 {
      return Unsupported;
    }
    status := RunSupported(mem, arena.value, config.value, report, stats, neon);
  }

  /** The pass proper, once its arguments are accepted. */
  method RunSupported(mem: Memory, arena: Arena, rc: RunConfig, report: Report, stats: Stats, neon: bool)
      returns (status: Status)
    requires mem.Valid() && arena.words == |mem.fabric.wires|
    requires report.errorCount < TWO64 && (rc.progress != null ==> rc.progress.value < TWO64)
    requires rc.plain.workerId < rc.plain.workerCount
    requires stats.bytesWritten == stats.bytesVerified == 0 && stats.currentPhase == FixedA
    modifies mem, report, stats, rc.progress
    ensures mem.Valid()
    ensures var end := PassEnd(rc.plain, mem.fabric, old(mem.cells), Schedule(rc.stop));
      && mem.cells == end.0 && status == Verdict(end.1)
      && Reflects(report, rc, end.1, old(report.Contents()), old(ValueOf(rc.progress)))
      && Shows(stats, end.1) && stats.pressureChecksum == end.1.pressure
  {
    hide Leads, Serves, Schedule, RecordAll, RunToEnd, Shows, Counts, PassEnd;
    var plain := rc.plain;
    var initialErrors := report.errorCount;
    var pressure := Xor(plain.seed, FromNat(plain.workerId));
    var start := SplitBlockStart(arena.words, plain.workerCount, plain.workerId);
    var count := SplitBlockSize(arena.words, plain.workerCount, plain.workerId);
    var phases := PhasesOf(plain.mode);
    ghost var plan := PassPlan(plain, mem, mem.cells, Schedule(rc.stop));
    ghost var before, base := report.Contents(), ValueOf(rc.progress);
    ghost var wk := Fresh(plan.job);
    FreshReflects(report, rc, wk, stats);
    var poll: nat := 0;
    var p: nat := 0;
    while p < |phases|
      invariant p <= |phases| && wk.pc == (if p < |phases| then AtPhase(p) else Finished)
      invariant mem.Valid() && Leads(plan, mem.cells, wk, poll)
      invariant wk.pressure == pressure && Reflects(report, rc, wk, before, base) && Shows(stats, wk)
    {
      var outcome;
      outcome, pressure, poll, wk :=
        RunPhase(mem, start, count, phases[p], neon, rc, report, stats, pressure, poll, plan, p, base, before, wk);
      if outcome.StoppedEarly? {
        stats.pressureChecksum := pressure;
        LeadsEnds(plan, mem.cells, wk, poll);
        status := AbortStatus(report, initialErrors, before, wk);
        return;
      }
      p := p + 1;
    }
    stats.pressureChecksum := pressure;
    LeadsEnds(plan, mem.cells, wk, poll);
    CountMoved(before, wk.log);
    status := if report.errorCount != initialErrors then Fail else Pass;
  }
}
