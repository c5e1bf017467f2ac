/**
 A session: passes by a crew of worker threads, their reports merged in worker order, a fallback when
 threads cannot be had, and the final status shown to the user. Threads, clock and pad input enter as
 a history of rounds.
 */
module Sessions {
  import opened Words
  import opened Patterns
  import opened Reports
  import opened Arenas
  import opened Memories
  import opened ChunkVerify
  import opened Machine
  import opened Detection
  import opened StuckBits
  import opened Crews
  import opened Solo
  import opened Reduction
  import opened Runner
  import opened Passes
  import opened PassLaws
  import opened Platforms

  // ----- statuses

  /** `combine_worker_status` */
  function Combine(current: Status, worker: Status): Status {
    if current == Fail || worker == Fail then Fail
    else if current == Aborted || worker == Aborted then Aborted
    else if current == Unsupported || worker == Unsupported then Unsupported
    else Pass
  }

  /** The status of a session that merged these workers, before the end-of-session rules. */
  function CombineAll(merged: seq<Worker>): Status {
    if merged == [] then Pass else Combine(CombineAll(merged[..|merged| - 1]), Verdict(merged[|merged| - 1]))
  }

  /** Whatever the order of workers, one failure fails the session and, short of that, one abort aborts it. */
  lemma {:induction false} CombineAllMeaning(merged: seq<Worker>)
    ensures CombineAll(merged) == Fail <==> exists w :: w in merged && w.log != []
    ensures CombineAll(merged) == Aborted <==>
      (forall w :: w in merged ==> w.log == []) && exists w :: w in merged && !w.pc.Finished?
    ensures CombineAll(merged) != Unsupported
  {
    if merged != [] {
      var init, last := merged[..|merged| - 1], merged[|merged| - 1];
      CombineAllMeaning(init);
      assert merged == init + [last];
    }
  }

  // ----- what merging adds up to

  /** All errors of the merged workers, in the order they were merged. */
  function AllLogs(merged: seq<Worker>): seq<ErrorRecord> {
    if merged == [] then [] else AllLogs(merged[..|merged| - 1]) + merged[|merged| - 1].log
  }

  lemma {:induction false} AllLogsEmpty(merged: seq<Worker>)
    ensures AllLogs(merged) == [] <==> forall w :: w in merged ==> w.log == []
  {
    if merged != [] {
      var init, last := merged[..|merged| - 1], merged[|merged| - 1];
      AllLogsEmpty(init);
      assert merged == init + [last];
    }
  }

  function TotalWritten(merged: seq<Worker>): nat {
    if merged == [] then 0 else TotalWritten(merged[..|merged| - 1]) + merged[|merged| - 1].written
  }

  function TotalVerified(merged: seq<Worker>): nat {
    if merged == [] then 0 else TotalVerified(merged[..|merged| - 1]) + merged[|merged| - 1].verified
  }

  function TotalPressure(merged: seq<Worker>): Word {
    if merged == [] then 0 else Xor(TotalPressure(merged[..|merged| - 1]), merged[|merged| - 1].pressure)
  }

  /** The workers that ran to their end or found an error. */
  function Completed(merged: seq<Worker>): nat {
    if merged == [] then 0
    else Completed(merged[..|merged| - 1]) + if Verdict(merged[|merged| - 1]) == Aborted then 0 else 1
  }

  // ----- a worker's context, as its thread leaves it

  class WorkerContext {
    const report: Report
    const stats: Stats
    var status: Status

    /** The context after a pass that ended as w. */
    ghost predicate LeftBy(w: Worker)
      reads this, report, stats
    {
      && report.Contents() == RecordAll(EMPTY, w.log) && Shows(stats, w)
      && stats.pressureChecksum == w.pressure && status == Verdict(w)
    }

    /** `init_worker_context` */
    constructor (placeholder: ErrorRecord)
      ensures fresh(report) && fresh(stats) && status == Unsupported
    {
      report := new Report(placeholder);
      stats := new Stats();
      status := Unsupported;
    }

    /** `nxmt_worker_entry`: the runner's pass over the shared arena. */
    method Enter(mem: Memory, arena: Arena, rc: RunConfig, neon: bool)
      requires mem.Valid() && arena.words == |mem.fabric.wires| && Usable(arena)
      requires rc.plain.workerId < rc.plain.workerCount && ValueOf(rc.progress) < TWO64
      modifies this, report, stats, mem, rc.progress
      ensures mem.Valid()
      ensures var end := PassEnd(rc.plain, mem.fabric, old(mem.cells), Schedule(rc.stop));
        mem.cells == end.0 && LeftBy(end.1)
    {
      hide PassEnd, RecordAll, Shows, Counts;
      report.Init();
      status := RunPass(mem, Some(arena), Some(rc), report, stats, neon);
    }
  }

  /** An arena the runner accepts. */
  predicate Usable(arena: Arena) {
    arena.base != 0 && arena.base % 8 == 0 && arena.words != 0
  }

  // ----- the session's books

  /** One turn of the pass loop, as the outside world makes it. */
  datatype Round = Round(
    timeUp: bool,            // the duration had elapsed at the top of the loop
    created: nat,            // threads created before one could not be
    started: nat,            // threads started before one could not be
    interrupted: bool,       // user or system asked to stop while waiting
    timedOut: bool,          // the duration elapsed while waiting
    stops: seq<nat -> bool>) // what the polls of each started worker read
  {
    predicate Launches(workers: nat) {
      created == workers && (started == workers || started > 0)
    }
  }

  ghost predicate WellFormed(history: seq<Round>, workers: nat) {
    forall k :: 0 <= k < |history| ==> |history[k].stops| == history[k].started <= workers
  }

  /** The arena before a round, and how its workers ended. */
  datatype Played = Played(cells: seq<Word>, outcomes: seq<Worker>)

  /** Who runs, and on what. */
  datatype Setup = Setup(mode: Mode, seed: Word, workers: nat, fab: Fabric)
  {
    ghost predicate Valid() {
      fab.Valid() && fab.Unaliased() && workers > 0
    }

    function ConfigOf(pass: nat, i: nat): Config {
      Config(mode, seed, pass, i, workers, false)
    }
  }

  /** Every worker of a round ended as the runner's pass ends on its slice of the arena as the round found it. */
  ghost predicate EndsAs(setup: Setup, pass: nat, stops: seq<nat -> bool>, play: Played)
    requires setup.Valid()
  {
    && |play.cells| == setup.fab.cellCount && |play.outcomes| == |stops| <= setup.workers
    && forall i :: 0 <= i < |stops| ==> EndsOne(setup, pass, stops[i], play, i)
  }

  ghost predicate EndsOne(setup: Setup, pass: nat, stop: nat -> bool, play: Played, i: nat)
    requires setup.Valid() && |play.cells| == setup.fab.cellCount && i < |play.outcomes| && i < setup.workers
  {
    play.outcomes[i] == PassEnd(setup.ConfigOf(pass, i), setup.fab, play.cells, stop).1
  }

  /** The workers of the rounds played, in pass-then-worker order. */
  function WorkersOf(plays: seq<Played>): seq<Worker> {
    if plays == [] then [] else WorkersOf(plays[..|plays| - 1]) + plays[|plays| - 1].outcomes
  }

  /** After these rounds the session wants another one: it is timed, was not told to stop, and found nothing. */
  ghost predicate WantsMore(timed: bool, rounds: seq<Round>, merged: seq<Worker>) {
    rounds == []
    || (timed && !rounds[|rounds| - 1].interrupted && !rounds[|rounds| - 1].timedOut && AllLogs(merged) == [])
  }

  /** The next round comes about: there is time for it and threads to run it. */
  predicate Happens(timed: bool, workers: nat, round: Round) {
    !(timed && round.timeUp) && round.Launches(workers)
  }

  /**
   The pass loop played exactly the first rounds of the history: each was wanted and came about, its workers
   ended as the runner's passes, and then one was not wanted or did not come about.
   */
  ghost predicate Ran(setup: Setup, timed: bool, history: seq<Round>, plays: seq<Played>)
    requires setup.Valid()
  {
    && |plays| <= |history|
    && (forall k :: 0 <= k < |plays| ==> Turn(setup, timed, history, plays, k))
    && (|plays| < |history| ==>
          !WantsMore(timed, history[..|plays|], WorkersOf(plays)) || !Happens(timed, setup.workers, history[|plays|]))
  }

  ghost predicate Turn(setup: Setup, timed: bool, history: seq<Round>, plays: seq<Played>, k: nat)
    requires setup.Valid() && k < |plays| <= |history|
  {
    && WantsMore(timed, history[..k], WorkersOf(plays[..k])) && Happens(timed, setup.workers, history[k])
    && EndsAs(setup, k, history[k].stops, plays[k])
  }

  /** The configuration of the single-worker fallback. */
  function FallbackConfig(mode: Mode, seed: Word, pass: nat): Config {
    Config(mode, seed, pass, 0, 1, false)
  }

  function NeverStop(): nat -> bool {
    (_: nat) => false
  }

  class Session {
    const report: Report
    const totals: Stats
    var status: Status
    var completed: nat
    var passes: nat
    var passIndex: nat
    var userAborted: bool
    var stopRequested: bool
    var fallback: bool

    constructor (placeholder: ErrorRecord)
      ensures fresh(report) && fresh(totals) && Books([]) && status == Pass
      ensures passes == passIndex == 0 && !userAborted && !stopRequested && !fallback
    {
      report := new Report(placeholder);
      totals := new Stats();
      status, completed, passes, passIndex := Pass, 0, 0, 0;
      userAborted, stopRequested, fallback := false, false, false;
    }

    /** Report and totals are those of the merged workers. */
    ghost predicate Books(merged: seq<Worker>)
      reads this`completed, report, totals
    {
      && report.Contents() == Digest(AllLogs(merged))
      && totals.bytesWritten == U64(TotalWritten(merged)) && totals.bytesVerified == U64(TotalVerified(merged))
      && totals.pressureChecksum == TotalPressure(merged) && completed == Completed(merged)
    }

    lemma {:induction false} CountOfBooks(merged: seq<Worker>)
      requires Books(merged)
      ensures AllLogs(merged) == [] ==> report.errorCount == 0
      ensures report.Contents() == Digest(AllLogs(merged))
      ensures totals.bytesWritten == U64(TotalWritten(merged)) && totals.bytesVerified == U64(TotalVerified(merged))
    {}

    /** `merge_worker_context` */
    method MergeContext(ctx: WorkerContext, ghost w: Worker, ghost merged: seq<Worker>)
      requires ctx.LeftBy(w) && |w.log| < TWO64 && Books(merged) && ctx.report != report && ctx.stats != totals
      requires status == CombineAll(merged)
      modifies this`status, this`completed, report, totals
      ensures Books(merged + [w]) && status == CombineAll(merged + [w])
      ensures totals.bytesWritten == U64(old(totals.bytesWritten) + ctx.stats.bytesWritten)
      ensures totals.bytesVerified == U64(old(totals.bytesVerified) + ctx.stats.bytesVerified)
      ensures totals.pressureChecksum == Xor(old(totals.pressureChecksum), ctx.stats.pressureChecksum)
      ensures completed == old(completed) + if w.pc.Finished? || w.log != [] then 1 else 0
    {
      hide AllLogs, Digest, MergeInto, RecordAll, TotalWritten, TotalVerified, TotalPressure, Completed, CombineAll,
           Combine, Verdict, U64, Xor;
      TotalsGrow(merged, w);
      Completes(w);
      totals.bytesWritten := U64(totals.bytesWritten + ctx.stats.bytesWritten);
      totals.bytesVerified := U64(totals.bytesVerified + ctx.stats.bytesVerified);
      totals.pressureChecksum := Xor(totals.pressureChecksum, ctx.stats.pressureChecksum);
      MergedReport(merged, w);
      report.Merge(ctx.report);
      status := Combine(status, ctx.status);
      if ctx.status != Unsupported && ctx.status != Aborted {
        completed := completed + 1;
      }
    }

    /** One worker's pass and its merge. */
    method PlayWorker(mem: Memory, arena: Arena, rc: RunConfig, neon: bool, placeholder: ErrorRecord,
        ghost merged: seq<Worker>)
        returns (ghost w: Worker)
      requires mem.Valid() && arena.words == |mem.fabric.wires| && Usable(arena)
      requires rc.plain.workerId < rc.plain.workerCount && ValueOf(rc.progress) < TWO64
      requires Books(merged) && status == CombineAll(merged)
      modifies this`status, this`completed, report, totals, mem, rc.progress
      ensures mem.Valid()
      ensures var end := PassEnd(rc.plain, mem.fabric, old(mem.cells), Schedule(rc.stop));
        mem.cells == end.0 && w == end.1
      ensures Books(merged + [w]) && status == CombineAll(merged + [w])
    {
      hide Books, CombineAll, PassEnd, WorkerContext.LeftBy;
      var ctx := new WorkerContext(placeholder);
      w := PassEnd(rc.plain, mem.fabric, mem.cells, Schedule(rc.stop)).1;
      ctx.Enter(mem, arena, rc, neon);
      MergeContext(ctx, w, merged);
    }

    /**
     The workers of one round, each run to its end, and merged first to last. Run one after the other they end
     as in any interleaving, since each sees only its own slice.
     */
    method PlayRound(mem: Memory, arena: Arena, pass: nat, stops: seq<nat -> bool>, neon: bool,
        placeholder: ErrorRecord,
        mode: Mode, seed: Word, workers: nat, ghost setup: Setup, ghost merged: seq<Worker>)
        returns (ghost play: Played)
      requires mem.Valid() && arena.words == |mem.fabric.wires| && Usable(arena)
      requires setup == Setup(mode, seed, workers, mem.fabric) && setup.Valid() && |stops| <= workers
      requires Books(merged) && status == CombineAll(merged)
      modifies this`status, this`completed, report, totals, mem
      ensures mem.Valid() && play.cells == old(mem.cells) && EndsAs(setup, pass, stops, play)
      ensures Books(merged + play.outcomes) && status == CombineAll(merged + play.outcomes)
      ensures SlicesSwept(setup, pass, mem.cells, play.outcomes)
    {
      hide Books, CombineAll, PassEnd, EndsOne, Untouched, SlicesSwept;
      ghost var cells := mem.cells;
      ghost var outcomes: seq<Worker> := [];
      assert merged + outcomes == merged;
      NothingTouched(setup, pass, cells);
      NothingSwept(setup, pass, cells);
      for i := 0 to |stops|
        invariant mem.Valid() && |outcomes| == i && Untouched(setup, pass, cells, mem.cells, i)
        invariant SlicesSwept(setup, pass, mem.cells, outcomes)
        invariant Books(merged + outcomes) && status == CombineAll(merged + outcomes)
        invariant forall j :: 0 <= j < i ==> EndsOne(setup, pass, stops[j], Played(cells, outcomes), j)
      {
        var progress := new Counter();
        var rc := RunConfig(Config(mode, seed, pass, i, workers, false), Some(stops[i]), progress);
        ghost var before := mem.cells;
        ghost var w := PlayWorker(mem, arena, rc, neon, placeholder, merged + outcomes);
        ScheduleIs(stops[i]);
        WorkerEnds(setup, pass, cells, before, stops[i], i, outcomes, w);
        WorkerSweeps(setup, pass, before, Schedule(Some(stops[i])), outcomes, w);
        assert merged + outcomes + [w] == merged + (outcomes + [w]);
        forall j | 0 <= j < i
          ensures EndsOne(setup, pass, stops[j], Played(cells, outcomes + [w]), j)
        {
          EndsStays(setup, pass, stops[j], cells, outcomes, w, j);
        }
        outcomes := outcomes + [w];
      }
      play := Played(cells, outcomes);
    }

    /**
     The pass loop and what follows it, over an arena the runner accepts. The report is that of all merged
     logs, in pass-then-worker order; the status is FAIL exactly when a merged log or the GPU has an error,
     ABORTED exactly when instead the user interrupted a worker, and PASS otherwise.
     */
    method RunSession(mem: Memory, arena: Arena, mode: Mode, seed: Word, workers: nat, timed: bool, history: seq<Round>,
        gpuErrors: nat, neon: bool, placeholder: ErrorRecord)
        returns (ghost plays: seq<Played>, ghost merged: seq<Worker>)
      requires mem.Valid() && arena.words == |mem.fabric.wires| && Usable(arena)
      requires Setup(mode, seed, workers, mem.fabric).Valid() && WellFormed(history, workers)
      requires Books([]) && status == Pass && passes == passIndex == 0 && !userAborted && !stopRequested && !fallback
      modifies this, report, totals, mem
      ensures mem.Valid()
      ensures var n := |plays|;
        && Ran(Setup(mode, seed, workers, mem.fabric), timed, history, plays)
        && (fallback <==>
              n < |history| && WantsMore(timed, history[..n], WorkersOf(plays)) && !(timed && history[n].timeUp))
        && passes == n + (if fallback then 1 else 0)
        && (userAborted <==> n > 0 && history[n - 1].interrupted)
      ensures EndsWithRounds(Setup(mode, seed, workers, mem.fabric), plays, merged, fallback, mem.cells)
      ensures Books(merged)
      ensures status == Fail <==> AllLogs(merged) != [] || gpuErrors > 0
      ensures status == Aborted <==>
        AllLogs(merged) == [] && gpuErrors == 0 && userAborted && exists w :: w in merged && !w.pc.Finished?
      ensures status != Unsupported
      ensures mem.fabric.NoStuckBits() ==> AllLogs(merged) == []
      ensures LoadsOnce(Setup(mode, seed, workers, mem.fabric), timed, history) ==>
        AllLogs(merged) == CrewLog(Setup(mode, seed, workers, mem.fabric), 0, workers)
      ensures LoadsOnce(Setup(mode, seed, workers, mem.fabric), timed, history) || (fallback && !mode.Quick?) ==>
        Decided(mem.fabric, report.Contents(), status, gpuErrors)
      ensures AllRan(plays, merged, workers) ==>
        totals.bytesWritten == totals.bytesVerified == U64(BytesOfPasses(passes, mode, |mem.fabric.wires|))
    {
      hide SweptAlone, LastSwept, AllRan, BytesOfPasses;
      hide Books, CombineAll, WellFormed, AllLogs, WorkersOf, Ran, WantsMore, FallbackEnd, PassEnd, LoadsOnce,
           CrewLog, StuckSomewhere, StuckReport, Digest;
      ghost var setup := Setup(mode, seed, workers, mem.fabric);
      plays := RunRounds(mem, arena, mode, seed, workers, timed, history, neon, placeholder, setup);
      merged := WorkersOf(plays);
      ghost var rounds := merged;
      ghost var lone: Option<Worker> := None;
      if fallback {
        stopRequested := false;
        ghost var w := RunFallback(mem, arena, mode, seed, neon, placeholder, merged, setup);
        merged := merged + [w];
        lone := Some(w);
        passes := passes + 1;
      }
      stopRequested := true;
      Conclude(gpuErrors, merged);
      CountOfBooks(merged);
      HealthySession(setup, timed, history, plays, lone);
      LoadedSession(setup, timed, history, plays, lone);
      assert rounds + [] == rounds;
      FallbackDecides(setup, timed, history, plays, lone, mem.cells);
      SessionBytes(setup, timed, history, plays, lone, mem.cells);
    }

    /** The single-worker fallback: one worker over the whole arena, which nobody stops. */
    method RunFallback(mem: Memory, arena: Arena, mode: Mode, seed: Word, neon: bool, placeholder: ErrorRecord,
        ghost merged: seq<Worker>, ghost setup: Setup) returns (ghost w: Worker)
      requires mem.Valid() && arena.words == |mem.fabric.wires| && Usable(arena)
      requires setup.Valid() && setup.fab == mem.fabric && setup.mode == mode && setup.seed == seed
      requires Books(merged) && status == CombineAll(merged)
      modifies this`status, this`completed, report, totals, mem
      ensures mem.Valid() && FallbackEnd(setup, passIndex, w) && SweptAlone(setup, passIndex, mem.cells, w)
      ensures Books(merged + [w]) && status == CombineAll(merged + [w])
    {
      hide Books, CombineAll, PassEnd, FallbackEnd, SweptAlone;
      var rc := RunConfig(FallbackConfig(mode, seed, passIndex), Some(NeverStop()), null);
      ghost var before := mem.cells;
      w := PlayWorker(mem, arena, rc, neon, placeholder, merged);
      ScheduleIs(NeverStop());
      FallbackEnds(setup, passIndex, before, w);
      FallbackSweeps(setup, passIndex, before, Schedule(Some(NeverStop())));
    }

    /** The end-of-session rules: an error of the GPU fails the session, running out of time does not abort it. */
    method Conclude(gpuErrors: nat, ghost merged: seq<Worker>)
      requires Books(merged) && status == CombineAll(merged)
      modifies this`status
      ensures Books(merged)
      ensures status == Fail <==> AllLogs(merged) != [] || gpuErrors > 0
      ensures status == Aborted <==>
        AllLogs(merged) == [] && gpuErrors == 0 && userAborted && exists w :: w in merged && !w.pc.Finished?
      ensures status != Unsupported
    {
      hide Books, CombineAll, AllLogs, Digest;
      CombineAllMeaning(merged);
      AllLogsEmpty(merged);
      CountOfBooks(merged);
      if gpuErrors > 0 {
        if status != Fail {
          status := Fail;
        }
      }
      if !userAborted && status == Aborted && report.errorCount == 0 {
        status := Pass;
      }
    }

    /** The pass loop. */
    method RunRounds(mem: Memory, arena: Arena, mode: Mode, seed: Word, workers: nat, timed: bool, history: seq<Round>,
        neon: bool, placeholder: ErrorRecord, ghost setup: Setup) returns (ghost plays: seq<Played>)
      requires mem.Valid() && arena.words == |mem.fabric.wires| && Usable(arena)
      requires setup == Setup(mode, seed, workers, mem.fabric) && setup.Valid() && WellFormed(history, workers)
      requires Books([]) && status == Pass && passes == passIndex == 0 && !userAborted && !stopRequested && !fallback
      modifies this, report, totals, mem
      ensures mem.Valid() && |plays| <= |history| && Ran(setup, timed, history, plays) && passes == |plays|
      ensures Books(WorkersOf(plays)) && status == CombineAll(WorkersOf(plays))
      ensures fallback <==>
        var n := |plays|;
        n < |history| && WantsMore(timed, history[..n], WorkersOf(plays)) && !(timed && history[n].timeUp)
      ensures fallback ==> passIndex == |plays|
      ensures userAborted <==> |plays| > 0 && history[|plays| - 1].interrupted
      ensures LastSwept(setup, plays, mem.cells)
    {
      hide Books, CombineAll, WellFormed, AllLogs, WorkersOf, WantsMore, Turn, EndsAs, SlicesSwept;
      plays := [];
      StartsPassing(timed);
      assert history[..0] == [];
      var k: nat := 0;
      while k < |history|
        invariant mem.Valid() && k == |plays| <= |history|
        invariant Books(WorkersOf(plays)) && status == CombineAll(WorkersOf(plays))
        invariant passes == passIndex == k && !userAborted && !stopRequested && !fallback
        invariant forall i :: 0 <= i < k ==> Turn(setup, timed, history, plays, i)
        invariant LastSwept(setup, plays, mem.cells)
        invariant WantsMore(timed, history[..k], WorkersOf(plays)) && (k > 0 ==> !history[k - 1].interrupted)
      {
        var round := history[k];
        if stopRequested {
          break;
        }
        if timed && round.timeUp {
          break;
        }
        if round.created != workers || (round.started != workers && round.started == 0) {
          fallback := true;
          break;
        }
        if round.interrupted {
          stopRequested := true;
          userAborted := true;
        } else if timed && round.timedOut {
          stopRequested := true;
        }
        RoundFits(history, workers, k);
        ghost var play :=
          PlayRound(mem, arena, passIndex, round.stops, neon, placeholder, mode, seed, workers, setup,
            WorkersOf(plays));
        passes := passes + 1;
        TurnDone(setup, timed, history, plays, play);
        plays := plays + [play];
        RoundLeaves(setup, plays, mem.cells);
        AfterRound(timed, history, plays);
        if status == Fail {
          break;
        }
        if stopRequested {
          break;
        }
        if !timed {
          break;
        }
        passIndex := passIndex + 1;
        k := k + 1;
      }
    }
  }

  lemma {:induction false} RoundFits(history: seq<Round>, workers: nat, k: nat)
    requires WellFormed(history, workers) && k < |history|
    ensures |history[k].stops| == history[k].started <= workers
  {}

  lemma {:induction false} StartsPassing(timed: bool)
    ensures CombineAll([]) == Pass && WorkersOf([]) == [] && WantsMore(timed, [], [])
  {}

  lemma ScheduleIs(stop: nat -> bool)
    ensures forall t: nat :: Schedule(Some(stop))(t) == stop(t)
  {}

  /** One more round: it is a turn of the loop, and the earlier turns stay what they were. */
  lemma {:induction false} TurnDone(setup: Setup, timed: bool, history: seq<Round>, plays: seq<Played>, play: Played)
    requires setup.Valid() && |plays| < |history|
    requires forall i :: 0 <= i < |plays| ==> Turn(setup, timed, history, plays, i)
    requires WantsMore(timed, history[..|plays|], WorkersOf(plays)) && Happens(timed, setup.workers, history[|plays|])
    requires EndsAs(setup, |plays|, history[|plays|].stops, play)
    ensures forall i :: 0 <= i <= |plays| ==> Turn(setup, timed, history, plays + [play], i)
    ensures WorkersOf(plays + [play]) == WorkersOf(plays) + play.outcomes
  {
    hide WantsMore, EndsAs;
    var all := plays + [play];
    assert all[..|plays|] == plays;
    forall i | 0 <= i <= |plays|
      ensures Turn(setup, timed, history, all, i)
    {
      if i < |plays| {
        assert all[..i] == plays[..i] && Turn(setup, timed, history, plays, i);
      }
    }
  }

  lemma {:induction false} AfterRound(timed: bool, history: seq<Round>, plays: seq<Played>)
    requires 0 < |plays| <= |history|
    ensures var n := |plays|;
      WantsMore(timed, history[..n], WorkersOf(plays)) <==>
      timed && !history[n - 1].interrupted && !history[n - 1].timedOut && CombineAll(WorkersOf(plays)) != Fail
  {
    CombineAllMeaning(WorkersOf(plays));
    AllLogsEmpty(WorkersOf(plays));
  }

  lemma {:induction false} MergedReport(merged: seq<Worker>, w: Worker)
    requires |w.log| < TWO64
    ensures MergeInto(Digest(AllLogs(merged)), RecordAll(EMPTY, w.log)) == Digest(AllLogs(merged + [w]))
  {
    hide MergeInto, Digest, RecordAll;
    var all := merged + [w];
    assert all[..|all| - 1] == merged;
    RecordingDigests(w.log);
    MergeIsConcat(AllLogs(merged), w.log);
  }

  lemma Completes(w: Worker)
    ensures Verdict(w) != Unsupported
    ensures Verdict(w) != Aborted <==> w.pc.Finished? || w.log != []
  {}

  lemma {:induction false} TotalsGrow(merged: seq<Worker>, w: Worker)
    ensures U64(U64(TotalWritten(merged)) + U64(w.written)) == U64(TotalWritten(merged + [w]))
    ensures U64(U64(TotalVerified(merged)) + U64(w.verified)) == U64(TotalVerified(merged + [w]))
    ensures TotalPressure(merged + [w]) == Xor(TotalPressure(merged), w.pressure)
    ensures CombineAll(merged + [w]) == Combine(CombineAll(merged), Verdict(w))
    ensures Completed(merged + [w])
      == Completed(merged) + if Verdict(w) != Unsupported && Verdict(w) != Aborted then 1 else 0
  {
    hide Combine, Xor;
    var all := merged + [w];
    assert all[..|all| - 1] == merged && all[|all| - 1] == w;
    U64Add(TotalWritten(merged), w.written);
    U64Add(TotalVerified(merged), w.verified);
  }

  // ----- one worker after the other is as good as any interleaving

  ghost function JobOf(setup: Setup, pass: nat, i: nat): (job: Job)
    requires setup.Valid() && i < setup.workers
    ensures job == CrewOn(setup.mode, setup.seed, pass, setup.workers, setup.fab)[i] && job.Valid(setup.fab)
  {
    JobOn(setup.ConfigOf(pass, i), setup.fab)
  }

  /** The slices of the workers from i on are as the round found them. */
  ghost predicate Untouched(setup: Setup, pass: nat, cells: seq<Word>, now: seq<Word>, i: nat)
    requires setup.Valid()
  {
    && |cells| == |now| == setup.fab.cellCount
    && forall k: nat :: i <= k < setup.workers ==> AgreeOn(JobOf(setup, pass, k), setup.fab, now, cells)
  }

  lemma {:induction false} NothingTouched(setup: Setup, pass: nat, cells: seq<Word>)
    requires setup.Valid() && |cells| == setup.fab.cellCount
    ensures Untouched(setup, pass, cells, cells, 0)
  {}

  lemma {:induction false} PassEndAlike(plain: Config, fab: Fabric, cells: seq<Word>, stop: nat -> bool,
      stop': nat -> bool)
    requires fab.Valid() && |cells| == fab.cellCount && plain.workerId < plain.workerCount
    requires forall t: nat :: stop(t) == stop'(t)
    ensures PassEnd(plain, fab, cells, stop) == PassEnd(plain, fab, cells, stop')
  {
    hide RunToEnd, StepsToEnd;
    var job := JobOn(plain, fab);
    PassEndIs(plain, fab, cells, stop);
    PassEndIs(plain, fab, cells, stop');
    StridesAreSteps(job, fab, cells, Fresh(job), stop, 0);
    StridesAreSteps(job, fab, cells, Fresh(job), stop', 0);
    SameSchedule(job, fab, cells, Fresh(job), stop, stop', 0);
  }

  lemma {:induction false} WorkerEnds(setup: Setup, pass: nat, cells: seq<Word>, before: seq<Word>, stop: nat -> bool,
      i: nat, outcomes: seq<Worker>, w: Worker)
    requires setup.Valid() && i < setup.workers && |outcomes| == i && Untouched(setup, pass, cells, before, i)
    requires w == PassEnd(setup.ConfigOf(pass, i), setup.fab, before, Schedule(Some(stop))).1
    ensures EndsOne(setup, pass, stop, Played(cells, outcomes + [w]), i)
    ensures var end := PassEnd(setup.ConfigOf(pass, i), setup.fab, before, Schedule(Some(stop)));
      Untouched(setup, pass, cells, end.0, i + 1)
  {
    hide RunToEnd, AgreeOn, PassEnd;
    var plain := setup.ConfigOf(pass, i);
    var job := JobOf(setup, pass, i);
    ScheduleIs(stop);
    PassEndAlike(plain, setup.fab, before, Schedule(Some(stop)), stop);
    PassEndIs(plain, setup.fab, before, stop);
    PassEndIs(plain, setup.fab, cells, stop);
    OthersDoNotMatter(job, setup.fab, before, cells, stop);
    var after := PassEnd(plain, setup.fab, before, stop).0;
    forall k: nat | i + 1 <= k < setup.workers
      ensures AgreeOn(JobOf(setup, pass, k), setup.fab, after, cells)
    {
      ApartJobs(setup, pass, i, k);
      AgreesAfterOther(JobOf(setup, pass, k), job, setup.fab, before, cells, stop);
    }
  }

  lemma {:induction false} ApartJobs(setup: Setup, pass: nat, i: nat, k: nat)
    requires setup.Valid() && i < k < setup.workers
    ensures forall w: nat :: !(JobOf(setup, pass, k).Owns(w) && JobOf(setup, pass, i).Owns(w))
  {
    var jobs := CrewOn(setup.mode, setup.seed, pass, setup.workers, setup.fab);
    assert jobs[i] == JobOf(setup, pass, i) && jobs[k] == JobOf(setup, pass, k);
  }

  lemma {:induction false} EndsStays(setup: Setup, pass: nat, stop: nat -> bool, cells: seq<Word>,
      outcomes: seq<Worker>, w: Worker, j: nat)
    requires setup.Valid() && |cells| == setup.fab.cellCount && j < |outcomes| && j < setup.workers
    requires EndsOne(setup, pass, stop, Played(cells, outcomes), j)
    ensures EndsOne(setup, pass, stop, Played(cells, outcomes + [w]), j)
  {}

  /**
   Conversely every interleaving of a crew without upsets, once its started workers have ended, is such a
   round: each ended as the runner's pass ends on the arena as the round found it.
   */
  lemma {:induction false} InterleavedRound(setup: Setup, pass: nat, started: nat, cells: seq<Word>, evs: seq<Event>)
      returns (stops: seq<nat -> bool>)
    requires setup.Valid() && |cells| == setup.fab.cellCount && started <= setup.workers
    requires AllPossible(CrewOn(setup.mode, setup.seed, pass, setup.workers, setup.fab), setup.fab, evs)
    requires NoUpsets(evs)
    requires var jobs := CrewOn(setup.mode, setup.seed, pass, setup.workers, setup.fab);
      forall i :: 0 <= i < started ==> !Running(Exec(jobs, setup.fab, Begin(jobs, setup.fab, cells), evs).workers[i].pc)
    ensures var jobs := CrewOn(setup.mode, setup.seed, pass, setup.workers, setup.fab);
      var ended := Exec(jobs, setup.fab, Begin(jobs, setup.fab, cells), evs).workers[..started];
      EndsAs(setup, pass, stops, Played(cells, ended))
    decreases started
  {
    hide Exec, Begin, PassEnd, RunToEnd, AgreeOn;
    var jobs := CrewOn(setup.mode, setup.seed, pass, setup.workers, setup.fab);
    var all := Exec(jobs, setup.fab, Begin(jobs, setup.fab, cells), evs).workers;
    if started == 0 {
      stops := [];
    } else {
      var i := started - 1;
      var init := InterleavedRound(setup, pass, i, cells, evs);
      var stop := EveryWorkerRunsAlone(jobs, setup.fab, cells, evs, i);
      PassEndIs(setup.ConfigOf(pass, i), setup.fab, cells, stop);
      stops := init + [stop];
      assert jobs[i] == JobOf(setup, pass, i);
      assert all[..started] == all[..i] + [all[i]];
      forall j | 0 <= j < started
        ensures EndsOne(setup, pass, stops[j], Played(cells, all[..started]), j)
      {
        if j < i {
          assert EndsOne(setup, pass, init[j], Played(cells, all[..i]), j);
        }
      }
    }
  }

  // ----- the fallback

  /** The fallback worker ended as an uninterrupted pass over the whole arena. */
  ghost predicate FallbackEnd(setup: Setup, pass: nat, w: Worker)
    requires setup.Valid()
  {
    exists cells: seq<Word> :: |cells| == setup.fab.cellCount && FallbackFrom(setup, pass, cells, w)
  }

  ghost predicate FallbackFrom(setup: Setup, pass: nat, cells: seq<Word>, w: Worker)
    requires setup.Valid() && |cells| == setup.fab.cellCount
  {
    w == PassEnd(FallbackConfig(setup.mode, setup.seed, pass), setup.fab, cells, NeverStop()).1
  }

  lemma {:induction false} FallbackEnds(setup: Setup, pass: nat, cells: seq<Word>, w: Worker)
    requires setup.Valid() && |cells| == setup.fab.cellCount
    requires w == PassEnd(FallbackConfig(setup.mode, setup.seed, pass), setup.fab, cells, Schedule(Some(NeverStop()))).1
    ensures FallbackEnd(setup, pass, w)
  {
    hide PassEnd;
    ScheduleIs(NeverStop());
    PassEndAlike(FallbackConfig(setup.mode, setup.seed, pass), setup.fab, cells, Schedule(Some(NeverStop())),
      NeverStop());
    assert FallbackFrom(setup, pass, cells, w);
  }

  // ----- no worker is ever refused

  /** A carve of the arena made from a range that is paged and not empty, as `CarvePump` and the heap give it. */
  predicate Carved(offered: Range, c: Carve) {
    && offered.Paged() && offered.start > 0 && offered.size > 0 && offered.start + offered.size < TWO64
    && var arena := ArenaFromRange(offered.start, offered.size);
      && c.cpu.base == arena.base && c.cpu.words == c.cpu.size / WORD_BYTES
      && (arena.size % PAGE == 0 ==> c.cpu.size % PAGE == 0) && (arena.size > 0 ==> c.cpu.size > 0)
  }

  /** The runner accepts it: every worker's configuration, and the fallback's, is one it supports. */
  lemma {:induction false} UsableArenaIsSupported(offered: Range, c: Carve, config: RunConfig, report: Report)
    requires Carved(offered, c) && config.plain.workerId < config.plain.workerCount
    ensures Supported(Some(c.cpu), Some(config), report)
    ensures c.cpu.words * WORD_BYTES == c.cpu.size
  {
    hide Carved;
    CarvedArenaIsUsable(offered, c);
  }

  lemma {:induction false} CarvedArenaIsUsable(offered: Range, c: Carve)
    requires Carved(offered, c)
    ensures Usable(c.cpu) && c.cpu.words * WORD_BYTES == c.cpu.size && c.cpu.base == offered.start
  {
    hide ArenaFromRange, AlignDown, AlignUp;
    ArenaKeepsPagedRange(offered);
    ModUnique(c.cpu.base, 0, 512 * (c.cpu.base / PAGE), 8);
    PagedWords(c.cpu.size);
  }

  lemma PagedWords(size: nat)
    requires size % PAGE == 0
    ensures size / WORD_BYTES * WORD_BYTES == size
  {
    PagedDifference(size, 0);
  }

  // ----- what a session says about the memory

  /** All workers a session merges: those of its rounds, and the fallback's if there was one. */
  function MergedWith(plays: seq<Played>, lone: Option<Worker>): seq<Worker> {
    WorkersOf(plays) + if lone.Some? then [lone.value] else []
  }

  /** The rounds and the fallback were played by the runner. */
  ghost predicate PlayedOut(setup: Setup, timed: bool, history: seq<Round>, plays: seq<Played>, lone: Option<Worker>)
    requires setup.Valid()
  {
    && Ran(setup, timed, history, plays)
    && (lone.Some? ==>
          FallbackEnd(setup, |plays|, lone.value) && WantsMore(timed, history[..|plays|], WorkersOf(plays)))
  }

  lemma {:induction false} HealthyWorkers(setup: Setup, timed: bool, history: seq<Round>, plays: seq<Played>, n: nat)
    requires setup.Valid() && setup.fab.NoStuckBits() && n <= |plays| && Ran(setup, timed, history, plays)
    ensures forall w :: w in WorkersOf(plays[..n]) ==> w.log == []
  {
    hide PassEnd, WantsMore;
    if n > 0 {
      HealthyWorkers(setup, timed, history, plays, n - 1);
      assert plays[..n][..n - 1] == plays[..n - 1];
      var play := plays[n - 1];
      assert Turn(setup, timed, history, plays, n - 1);
      forall i | 0 <= i < |play.outcomes|
        ensures play.outcomes[i].log == []
      {
        assert EndsOne(setup, n - 1, history[n - 1].stops[i], play, i);
        CleanPassPasses(setup.ConfigOf(n - 1, i), setup.fab, play.cells, history[n - 1].stops[i]);
      }
    }
  }

  /** On fault-free memory, however its rounds go, a session merges no error, fallback included. */
  lemma {:induction false} HealthySession(setup: Setup, timed: bool, history: seq<Round>, plays: seq<Played>,
      lone: Option<Worker>)
    requires setup.Valid() && PlayedOut(setup, timed, history, plays, lone)
    ensures setup.fab.NoStuckBits() ==> AllLogs(MergedWith(plays, lone)) == []
  {
    hide PassEnd, Ran, WorkersOf, AllLogs;
    if setup.fab.NoStuckBits() {
      HealthyWorkers(setup, timed, history, plays, |plays|);
      assert plays[..|plays|] == plays;
      if lone.Some? {
        var cells :| |cells| == setup.fab.cellCount && FallbackFrom(setup, |plays|, cells, lone.value);
        CleanPassPasses(FallbackConfig(setup.mode, setup.seed, |plays|), setup.fab, cells, NeverStop());
      }
      AllLogsEmpty(MergedWith(plays, lone));
    }
  }

  // ----- a load mode's first round

  ghost predicate StuckSomewhere(fab: Fabric)
    requires fab.Valid()
  {
    exists w: nat :: w < |fab.wires| && StuckAt(fab, w) != 0
  }

  /** All workers were started and none was told to stop. */
  ghost predicate Uninterrupted(round: Round, workers: nat) {
    |round.stops| == workers && forall i, t: nat :: 0 <= i < |round.stops| ==> !round.stops[i](t)
  }

  /** A Memory Load or Extreme session whose first round comes about and runs uninterrupted. */
  ghost predicate LoadsOnce(setup: Setup, timed: bool, history: seq<Round>) {
    && !setup.mode.Quick? && history != []
    && Happens(timed, setup.workers, history[0]) && Uninterrupted(history[0], setup.workers)
  }

  /** What the first n workers of an uninterrupted round log. */
  ghost function CrewLog(setup: Setup, pass: nat, n: nat): seq<ErrorRecord>
    requires setup.Valid() && n <= setup.workers
  {
    if n == 0 then []
    else
      var job := JobOf(setup, pass, n - 1);
      CrewLog(setup, pass, n - 1) + PhasesLog(job, setup.fab, |job.phases|)
  }

  lemma {:induction false} RoundLog(setup: Setup, pass: nat, round: Round, play: Played, n: nat)
    requires setup.Valid() && Uninterrupted(round, setup.workers) && EndsAs(setup, pass, round.stops, play)
    requires n <= setup.workers
    ensures AllLogs(play.outcomes[..n]) == CrewLog(setup, pass, n)
  {
    hide PassEnd, RunToEnd, PhasesLog;
    if n > 0 {
      var i := n - 1;
      RoundLog(setup, pass, round, play, i);
      var plain, stop := setup.ConfigOf(pass, i), round.stops[i];
      assert EndsOne(setup, pass, stop, play, i);
      PassEndIs(plain, setup.fab, play.cells, stop);
      UninterruptedFinishes(JobOn(plain, setup.fab), setup.fab, play.cells, Fresh(JobOn(plain, setup.fab)), stop, 0);
      FinishedLog(plain, setup.fab, play.cells, stop);
      assert play.outcomes[..n][..i] == play.outcomes[..i];
    }
  }

  /** Together the slices of a load mode show exactly the stuck words of the arena. */
  lemma {:induction false} CrewShowsStuck(setup: Setup, pass: nat, n: nat)
    requires setup.Valid() && !setup.mode.Quick? && n <= setup.workers
    requires SplitBlockStart(|setup.fab.wires|, setup.workers, n) <= |setup.fab.wires|
    ensures ShowsStuck(setup.fab, CrewLog(setup, pass, n), 0, SplitBlockStart(|setup.fab.wires|, setup.workers, n))
  {
    hide ShowsStuck, PhasesLog, SplitBlockStart, SplitBlockSize;
    var words := |setup.fab.wires|;
    if n == 0 {
      SplitEnds(words, setup.workers);
      NothingStuck(setup.fab, 0, 0);
    } else {
      var job := JobOf(setup, pass, n - 1);
      SplitStep(words, setup.workers, n - 1);
      CrewShowsStuck(setup, pass, n - 1);
      LoadModesDriveBothWays(setup.ConfigOf(pass, n - 1), words);
      PassLogShowsStuck(job, setup.fab);
      ShowsStuckConcat(setup.fab, CrewLog(setup, pass, n - 1), PhasesLog(job, setup.fab, |job.phases|),
        0, job.start, job.start + job.count);
    }
  }

  lemma {:induction false} ArenaShowsStuck(setup: Setup, pass: nat)
    requires setup.Valid() && !setup.mode.Quick?
    ensures var log := CrewLog(setup, pass, setup.workers);
      ShowsStuck(setup.fab, log, 0, |setup.fab.wires|) && (log == [] <==> !StuckSomewhere(setup.fab))
  {
    hide ShowsStuck, CrewLog, StuckAt;
    SplitEnds(|setup.fab.wires|, setup.workers);
    CrewShowsStuck(setup, pass, setup.workers);
    ShowsInReport(setup.fab, CrewLog(setup, pass, setup.workers), 0, |setup.fab.wires|);
  }

  /**
   A session whose first round is such a round merges exactly the errors of that round: every error of every
   stuck word of the arena, in worker order, and nothing if there is none.
   */
  lemma {:induction false} LoadedSession(setup: Setup, timed: bool, history: seq<Round>, plays: seq<Played>,
      lone: Option<Worker>)
    requires setup.Valid() && PlayedOut(setup, timed, history, plays, lone)
    ensures LoadsOnce(setup, timed, history) ==>
      var log := AllLogs(MergedWith(plays, lone));
      && log == CrewLog(setup, 0, setup.workers) && (log == [] <==> !StuckSomewhere(setup.fab))
      && StuckReport(setup.fab, Digest(log), 0, |setup.fab.wires|)
  {
    hide StuckSomewhere, FallbackEnd, AllLogs, CrewLog, ShowsStuck, StuckReport, Digest;
    if LoadsOnce(setup, timed, history) {
      var log := CrewLog(setup, 0, setup.workers);
      ArenaShowsStuck(setup, 0);
      ShowsInReport(setup.fab, log, 0, |setup.fab.wires|);
      if log == [] {
        NotStuck(setup.fab);
        HealthySession(setup, timed, history, plays, lone);
      } else {
        FirstRoundOnly(setup, timed, history, plays, lone);
      }
    }
  }

  lemma {:induction false} NotStuck(fab: Fabric)
    requires fab.Valid() && !StuckSomewhere(fab)
    ensures fab.NoStuckBits()
  {
    hide Or;
    forall w: nat | w < |fab.wires|
      ensures fab.stuckLow[w] == 0 && fab.stuckHigh[w] == 0
    {
      assert StuckAt(fab, w) == 0;
      OrLaws(fab.stuckLow[w], fab.stuckHigh[w], 0);
    }
  }

  lemma OneRound(plays: seq<Played>)
    requires |plays| == 1
    ensures WorkersOf(plays) == plays[0].outcomes
  {
    assert WorkersOf(plays[..0]) == [];
  }

  /** A first round that finds something is the last. */
  lemma {:induction false} FirstRoundOnly(setup: Setup, timed: bool, history: seq<Round>, plays: seq<Played>,
      lone: Option<Worker>)
    requires setup.Valid() && PlayedOut(setup, timed, history, plays, lone) && LoadsOnce(setup, timed, history)
    requires CrewLog(setup, 0, setup.workers) != []
    ensures AllLogs(MergedWith(plays, lone)) == CrewLog(setup, 0, setup.workers)
  {
    hide FallbackEnd, AllLogs, CrewLog, EndsOne, Happens;
    assert history[..0] == [];
    assert |plays| > 0 && Turn(setup, timed, history, plays, 0);
    RoundLog(setup, 0, history[0], plays[0], setup.workers);
    var first := plays[..1];
    OneRound(first);
    assert plays[0].outcomes[..setup.workers] == plays[0].outcomes;
    assert AllLogs(WorkersOf(first)) != [] && |history[..1]| == 1;
    assert |plays| > 1 ==> Turn(setup, timed, history, plays, 1);
    assert plays == first;
    assert MergedWith(plays, lone) == WorkersOf(first);
  }

  // ----- what a round and the fallback leave behind

  /** Every word of the memory holds the last phase of this pass. */
  ghost predicate Swept(fab: Fabric, cells: seq<Word>, mode: Mode, seed: Word, pass: nat)
    requires fab.Valid() && |cells| == fab.cellCount
  {
    forall v: nat :: v < |fab.wires| ==> cells[fab.wires[v]] == ExpectedValue(seed, LastPhase(mode), pass, 8 * v)
  }

  ghost predicate SliceSwept(setup: Setup, pass: nat, cells: seq<Word>, i: nat)
    requires setup.Valid() && |cells| == setup.fab.cellCount && i < setup.workers
  {
    forall v: nat :: JobOf(setup, pass, i).Owns(v) ==>
      cells[setup.fab.wires[v]] == ExpectedValue(setup.seed, LastPhase(setup.mode), pass, 8 * v)
  }

  /** The slices of the workers that finished hold the last phase of this pass. */
  ghost predicate SlicesSwept(setup: Setup, pass: nat, cells: seq<Word>, outcomes: seq<Worker>)
    requires setup.Valid()
  {
    && |cells| == setup.fab.cellCount && |outcomes| <= setup.workers
    && forall j :: 0 <= j < |outcomes| && outcomes[j].pc.Finished? ==> SliceSwept(setup, pass, cells, j)
  }

  /** After a round whose workers all finished, the whole memory holds its last phase. */
  ghost predicate LastSwept(setup: Setup, plays: seq<Played>, cells: seq<Word>)
    requires setup.Valid()
  {
    |plays| > 0 ==>
      var n, outcomes := |plays| - 1, plays[|plays| - 1].outcomes;
      && SlicesSwept(setup, n, cells, outcomes)
      && (|outcomes| == setup.workers && (forall w :: w in outcomes ==> w.pc.Finished?) ==>
            Swept(setup.fab, cells, setup.mode, setup.seed, n))
  }

  lemma {:induction false} NothingSwept(setup: Setup, pass: nat, cells: seq<Word>)
    requires setup.Valid() && |cells| == setup.fab.cellCount
    ensures SlicesSwept(setup, pass, cells, [])
  {}

  /** A worker sweeps its own slice and leaves those of the workers before it alone. */
  lemma {:induction false} WorkerSweeps(setup: Setup, pass: nat, before: seq<Word>, stop: nat -> bool,
      outcomes: seq<Worker>, w: Worker)
    requires setup.Valid() && |outcomes| < setup.workers && SlicesSwept(setup, pass, before, outcomes)
    requires w == PassEnd(setup.ConfigOf(pass, |outcomes|), setup.fab, before, stop).1
    ensures var end := PassEnd(setup.ConfigOf(pass, |outcomes|), setup.fab, before, stop);
      SlicesSwept(setup, pass, end.0, outcomes + [w])
  {
    hide PassEnd, RunToEnd, SliceSwept;
    var i := |outcomes|;
    var plain := setup.ConfigOf(pass, i);
    var after := PassEnd(plain, setup.fab, before, stop).0;
    PassEndIs(plain, setup.fab, before, stop);
    var all := outcomes + [w];
    forall j | 0 <= j < |all| && all[j].pc.Finished?
      ensures SliceSwept(setup, pass, after, j)
    {
      if j < i {
        ApartJobs(setup, pass, j, i);
        AgreesAfterOther(JobOf(setup, pass, j), JobOf(setup, pass, i), setup.fab, before, before, stop);
        StaysSwept(setup, pass, before, after, j);
      } else {
        PassLeaves(plain, setup.fab, before, stop);
        OwnSliceSwept(setup, pass, after, i);
      }
    }
  }

  lemma {:induction false} StaysSwept(setup: Setup, pass: nat, cells: seq<Word>, cells': seq<Word>, j: nat)
    requires setup.Valid() && |cells| == |cells'| == setup.fab.cellCount && j < setup.workers
    requires SliceSwept(setup, pass, cells, j) && AgreeOn(JobOf(setup, pass, j), setup.fab, cells', cells)
    ensures SliceSwept(setup, pass, cells', j)
  {
    hide ExpectedValue;
  }

  lemma {:induction false} OwnSliceSwept(setup: Setup, pass: nat, cells: seq<Word>, i: nat)
    requires setup.Valid() && |cells| == setup.fab.cellCount && i < setup.workers
    requires forall v: nat :: JobOn(setup.ConfigOf(pass, i), setup.fab).Owns(v) ==>
      cells[setup.fab.wires[v]] == ExpectedValue(setup.seed, LastPhase(setup.mode), pass, 8 * v)
    ensures SliceSwept(setup, pass, cells, i)
  {
    hide ExpectedValue;
  }

  lemma {:induction false} RoundLeaves(setup: Setup, plays: seq<Played>, cells: seq<Word>)
    requires setup.Valid() && |plays| > 0
    requires SlicesSwept(setup, |plays| - 1, cells, plays[|plays| - 1].outcomes)
    ensures LastSwept(setup, plays, cells)
  {
    hide ExpectedValue;
    var n, outcomes := |plays| - 1, plays[|plays| - 1].outcomes;
    if |outcomes| == setup.workers && (forall w :: w in outcomes ==> w.pc.Finished?) {
      var jobs := CrewOn(setup.mode, setup.seed, n, setup.workers, setup.fab);
      forall v: nat | v < |setup.fab.wires|
        ensures cells[setup.fab.wires[v]] == ExpectedValue(setup.seed, LastPhase(setup.mode), n, 8 * v)
      {
        assert Owned(jobs, v);
        var j :| 0 <= j < |jobs| && jobs[j].Owns(v);
        assert outcomes[j] in outcomes;
        assert SliceSwept(setup, n, cells, j) && JobOf(setup, n, j).Owns(v);
      }
    }
  }

  /** The rounds' workers are merged, then that of the fallback, and whoever came last has swept the memory. */
  ghost predicate EndsWithRounds(setup: Setup, plays: seq<Played>, merged: seq<Worker>, fallback: bool,
      cells: seq<Word>)
    requires setup.Valid()
  {
    if !fallback then merged == WorkersOf(plays) && LastSwept(setup, plays, cells)
    else
      && merged != []
      && var w := merged[|merged| - 1];
        && merged == WorkersOf(plays) + [w]
        && FallbackEnd(setup, |plays|, w) && SweptAlone(setup, |plays|, cells, w)
  }

  /** The verdict is FAIL exactly for a stuck bit or an error of the GPU, and the report gives all stuck bits. */
  ghost predicate Decided(fab: Fabric, report: Summary, status: Status, gpuErrors: nat)
    requires fab.Valid()
  {
    && (status == Fail <==> StuckSomewhere(fab) || gpuErrors > 0)
    && StuckReport(fab, report, 0, |fab.wires|)
  }

  /** A single worker has run over the whole memory: it finished, and found all there is to find. */
  ghost predicate SweptAlone(setup: Setup, pass: nat, cells: seq<Word>, w: Worker)
    requires setup.Valid()
  {
    && |cells| == setup.fab.cellCount && Swept(setup.fab, cells, setup.mode, setup.seed, pass)
    && w.pc.Finished? && w.written == w.verified == (if setup.mode.Quick? then 3 else 8) * (8 * |setup.fab.wires|)
    && (!setup.mode.Quick? ==> ShowsStuck(setup.fab, w.log, 0, |setup.fab.wires|))
  }

  lemma {:induction false} FallbackSweeps(setup: Setup, pass: nat, before: seq<Word>, stop: nat -> bool)
    requires setup.Valid() && |before| == setup.fab.cellCount && forall t: nat :: !stop(t)
    ensures var end := PassEnd(FallbackConfig(setup.mode, setup.seed, pass), setup.fab, before, stop);
      SweptAlone(setup, pass, end.0, end.1)
  {
    hide PassEnd, RunToEnd, PhasesLog, ShowsStuck, ExpectedValue;
    var plain, fab := FallbackConfig(setup.mode, setup.seed, pass), setup.fab;
    var job := JobOn(plain, fab);
    SplitEnds(|fab.wires|, 1);
    SplitStep(|fab.wires|, 1, 0);
    assert job.start == 0 && job.count == |fab.wires|;
    PassEndIs(plain, fab, before, stop);
    UninterruptedFinishes(job, fab, before, Fresh(job), stop, 0);
    PassLeaves(plain, fab, before, stop);
    PassBytes(plain, fab, before, stop);
    FinishedLog(plain, fab, before, stop);
    if !setup.mode.Quick? {
      LoadModesDriveBothWays(plain, |fab.wires|);
      PassLogShowsStuck(job, fab);
    }
  }

  /** In a load mode the fallback, which only follows rounds without errors, decides the verdict and the report. */
  lemma {:induction false} FallbackDecides(setup: Setup, timed: bool, history: seq<Round>, plays: seq<Played>,
      lone: Option<Worker>, cells: seq<Word>)
    requires setup.Valid() && PlayedOut(setup, timed, history, plays, lone)
    requires lone.Some? ==> SweptAlone(setup, |plays|, cells, lone.value)
    ensures lone.Some? && !setup.mode.Quick? ==>
      var log := AllLogs(MergedWith(plays, lone));
      (log == [] <==> !StuckSomewhere(setup.fab)) && StuckReport(setup.fab, Digest(log), 0, |setup.fab.wires|)
  {
    hide ShowsStuck, StuckReport, Digest, StuckAt, FallbackEnd, Swept;
    if lone.Some? && !setup.mode.Quick? {
      var rounds, merged := WorkersOf(plays), MergedWith(plays, lone);
      if plays != [] {
        assert |history[..|plays|]| == |plays|;
      }
      assert AllLogs(rounds) == [];
      assert merged[..|merged| - 1] == rounds;
      assert AllLogs(merged) == lone.value.log;
      ShowsInReport(setup.fab, lone.value.log, 0, |setup.fab.wires|);
    }
  }

  // ----- the bytes of a session

  /** Every worker of every round was started, and ran to its end. */
  ghost predicate AllRan(plays: seq<Played>, merged: seq<Worker>, workers: nat) {
    && (forall w :: w in merged ==> w.pc.Finished?)
    && (forall k :: 0 <= k < |plays| ==> |plays[k].outcomes| == workers)
  }

  lemma {:induction false} TotalsConcat(a: seq<Worker>, b: seq<Worker>)
    ensures TotalWritten(a + b) == TotalWritten(a) + TotalWritten(b)
    ensures TotalVerified(a + b) == TotalVerified(a) + TotalVerified(b)
  {
    if b == [] {
      assert a + b == a;
    } else {
      assert (a + b)[..|a + b| - 1] == a + b[..|b| - 1];
      TotalsConcat(a, b[..|b| - 1]);
    }
  }

  function BytesOfPass(mode: Mode, words: nat): nat {
    (if mode.Quick? then 3 else 8) * (8 * words)
  }

  function BytesOfPasses(passes: nat, mode: Mode, words: nat): nat {
    passes * BytesOfPass(mode, words)
  }

  lemma PassBytesAdd(mode: Mode, a: nat, b: nat)
    ensures BytesOfPass(mode, a + b) == BytesOfPass(mode, a) + BytesOfPass(mode, b)
  {}

  lemma {:induction false} RoundBytes(setup: Setup, pass: nat, stops: seq<nat -> bool>, play: Played, m: nat)
    requires setup.Valid() && EndsAs(setup, pass, stops, play) && m <= |play.outcomes|
    requires forall w :: w in play.outcomes ==> w.pc.Finished?
    ensures TotalWritten(play.outcomes[..m]) == TotalVerified(play.outcomes[..m])
         == BytesOfPass(setup.mode, SplitBlockStart(|setup.fab.wires|, setup.workers, m))
  {
    hide PassEnd, BytesOfPass, SplitBlockStart, SplitBlockSize;
    var words := |setup.fab.wires|;
    if m == 0 {
      SplitEnds(words, setup.workers);
      assert BytesOfPass(setup.mode, 0) == 0 by { NoBytes(setup.mode); }
    } else {
      var i := m - 1;
      RoundBytes(setup, pass, stops, play, i);
      assert play.outcomes[..m][..i] == play.outcomes[..i];
      assert play.outcomes[i] in play.outcomes && EndsOne(setup, pass, stops[i], play, i);
      WorkerBytes(setup.ConfigOf(pass, i), setup.fab, play.cells, stops[i]);
      SplitStep(words, setup.workers, i);
      PassBytesAdd(setup.mode, SplitBlockStart(words, setup.workers, i), SplitBlockSize(words, setup.workers, i));
    }
  }

  lemma NoBytes(mode: Mode)
    ensures BytesOfPass(mode, 0) == 0
  {}

  lemma {:induction false} WorkerBytes(plain: Config, fab: Fabric, cells: seq<Word>, stop: nat -> bool)
    requires fab.Valid() && fab.Unaliased() && |cells| == fab.cellCount && plain.workerId < plain.workerCount
    requires PassEnd(plain, fab, cells, stop).1.pc.Finished?
    ensures var end := PassEnd(plain, fab, cells, stop).1;
      end.written == end.verified
        == BytesOfPass(plain.mode, SplitBlockSize(|fab.wires|, plain.workerCount, plain.workerId))
  {
    hide PassEnd, SplitBlockSize;
    PassBytes(plain, fab, cells, stop);
  }

  lemma {:induction false} RoundsBytes(setup: Setup, timed: bool, history: seq<Round>, plays: seq<Played>, n: nat)
    requires setup.Valid() && Ran(setup, timed, history, plays) && n <= |plays|
    requires AllRan(plays, WorkersOf(plays[..n]), setup.workers)
    ensures TotalWritten(WorkersOf(plays[..n])) == TotalVerified(WorkersOf(plays[..n]))
         == n * BytesOfPass(setup.mode, |setup.fab.wires|)
  {
    hide BytesOfPass, WantsMore, EndsAs, TotalWritten, TotalVerified;
    if n == 0 {
      assert WorkersOf(plays[..0]) == [];
      assert TotalWritten([]) == TotalVerified([]) == 0 by { NoTotals(); }
    } else {
      var play, init := plays[n - 1], WorkersOf(plays[..n - 1]);
      assert plays[..n][..n - 1] == plays[..n - 1];
      assert WorkersOf(plays[..n]) == init + play.outcomes;
      RoundsBytes(setup, timed, history, plays, n - 1);
      assert Turn(setup, timed, history, plays, n - 1);
      WholeRound(setup, n - 1, history[n - 1].stops, play);
      TotalsConcat(init, play.outcomes);
      var bytes := BytesOfPass(setup.mode, |setup.fab.wires|);
      assert n * bytes == (n - 1) * bytes + bytes;
    }
  }

  lemma NoTotals()
    ensures TotalWritten([]) == TotalVerified([]) == 0
  {}

  lemma {:induction false} WholeRound(setup: Setup, pass: nat, stops: seq<nat -> bool>, play: Played)
    requires setup.Valid() && EndsAs(setup, pass, stops, play) && |play.outcomes| == setup.workers
    requires forall w :: w in play.outcomes ==> w.pc.Finished?
    ensures TotalWritten(play.outcomes) == TotalVerified(play.outcomes) == BytesOfPass(setup.mode, |setup.fab.wires|)
  {
    RoundBytes(setup, pass, stops, play, setup.workers);
    assert play.outcomes[..setup.workers] == play.outcomes;
    SplitEnds(|setup.fab.wires|, setup.workers);
  }

  /** A session whose workers all ran wrote and verified the whole memory once a phase in every pass. */
  lemma {:induction false} SessionBytes(setup: Setup, timed: bool, history: seq<Round>, plays: seq<Played>,
      lone: Option<Worker>, cells: seq<Word>)
    requires setup.Valid() && PlayedOut(setup, timed, history, plays, lone)
    requires lone.Some? ==> SweptAlone(setup, |plays|, cells, lone.value)
    ensures var merged := MergedWith(plays, lone);
      AllRan(plays, merged, setup.workers) ==>
        var passes := |plays| + if lone.Some? then 1 else 0;
        TotalWritten(merged) == TotalVerified(merged)
          == BytesOfPasses(passes, setup.mode, |setup.fab.wires|)
  {
    hide Ran, WorkersOf, Swept, ShowsStuck, FallbackEnd, WantsMore;
    var merged, rounds := MergedWith(plays, lone), WorkersOf(plays);
    if AllRan(plays, merged, setup.workers) {
      assert plays[..|plays|] == plays;
      RoundsBytes(setup, timed, history, plays, |plays|);
      var bytes := BytesOfPass(setup.mode, |setup.fab.wires|);
      if lone.Some? {
        assert merged[..|merged| - 1] == rounds;
        assert (|plays| + 1) * bytes == |plays| * bytes + bytes;
      } else {
        assert merged == rounds;
      }
    }
  }

  // ----- which rounds are played

  /**
   Each round played had time and threads, and none is played after an error, a stop, a timeout or in a session
   that is not timed; and the history goes on only where the last round or the next one says so.
   */
  lemma {:induction false} RoundsPlayed(setup: Setup, timed: bool, history: seq<Round>, plays: seq<Played>)
    requires setup.Valid() && Ran(setup, timed, history, plays)
    ensures forall k :: 0 <= k < |plays| ==> HadTime(setup, timed, history[k])
    ensures |plays| > 1 ==> timed
    ensures forall k :: 0 <= k < |plays| - 1 ==> WentWell(history[k], plays[k])
    ensures |plays| < |history| ==>
      || !HadTime(setup, timed, history[|plays|])
      || (|plays| > 0 && (!timed || !WentWell(history[|plays| - 1], plays[|plays| - 1])))
  {
    hide AllLogs, EndsAs;
    forall k | 0 <= k < |plays|
      ensures HadTime(setup, timed, history[k])
    {
      assert Turn(setup, timed, history, plays, k);
    }
    forall k | 0 <= k < |plays| - 1
      ensures timed && WentWell(history[k], plays[k])
    {
      assert Turn(setup, timed, history, plays, k + 1);
      assert |history[..k + 1]| == k + 1;
      AllLogsEmpty(WorkersOf(plays[..k + 1]));
      assert plays[..k + 1][..k] == plays[..k];
    }
    if |plays| > 1 {
      assert WentWell(history[0], plays[0]);
    }
    if 0 < |plays| < |history| {
      var n := |plays| - 1;
      assert |history[..n + 1]| == n + 1 && Turn(setup, timed, history, plays, n);
      AllLogsEmpty(WorkersOf(plays));
      AllLogsEmpty(WorkersOf(plays[..n]));
      assert n > 0 ==> WentWell(history[n - 1], plays[n - 1]);
    }
  }

  predicate HadTime(setup: Setup, timed: bool, round: Round) {
    !(timed && round.timeUp) && round.created == setup.workers && (round.started == setup.workers || round.started > 0)
  }

  predicate WentWell(round: Round, play: Played) {
    !round.interrupted && !round.timedOut && forall w :: w in play.outcomes ==> w.log == []
  }
}
