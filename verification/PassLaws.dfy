/**
 What one uninterrupted pass does in each mode, phase by phase: which phases it runs and in what order, what
 it leaves in memory, how many bytes it moves and how often it polls.
 */
module PassLaws {
  import opened Words
  import opened Patterns
  import opened Reports
  import opened Arenas
  import opened Memories
  import opened ChunkVerify
  import opened Machine
  import opened Tracking
  import opened Findings
  import opened Detection
  import opened StuckBits
  import opened Progress
  import opened Crews
  import opened Solo
  import opened Runner
  import opened Passes

  // ----- the phases of a mode

  /** Quick Check runs three phases, the load modes run all but NARROW. */
  predicate Runs(mode: Mode, phase: Phase) {
    if mode.Quick? then phase.FixedA? || phase.Address? || phase.Random? else !phase.Narrow?
  }

  /** The order they come in. */
  function Rank(phase: Phase): nat {
    match phase
    case FixedA => 0
    case Fixed5 => 1
    case Checker => 2
    case BitSpread => 3
    case Stream => 4
    case Address => 5
    case Random => 6
    case Walking => 7
    case Narrow => 8
  }

  lemma PhasesAreRanked(mode: Mode)
    ensures forall p :: 0 <= p < |PhasesOf(mode)| ==> Runs(mode, PhasesOf(mode)[p])
    ensures forall p, q :: 0 <= p < q < |PhasesOf(mode)| ==> Rank(PhasesOf(mode)[p]) < Rank(PhasesOf(mode)[q])
    ensures |PhasesOf(mode)| == if mode.Quick? then 3 else 8
    ensures PhasesOf(mode)[|PhasesOf(mode)| - 1] == if mode.Quick? then Random else Walking
  {}

  lemma PhaseHasPlace(mode: Mode, phase: Phase) returns (p: nat)
    requires Runs(mode, phase)
    ensures p < |PhasesOf(mode)| && PhasesOf(mode)[p] == phase
  {
    p := if !mode.Quick? then Rank(phase) else if phase.FixedA? then 0 else if phase.Address? then 1 else 2;
  }

  // ----- the log, record by record

  lemma {:induction false} PhaseLogHas(job: Job, fab: Fabric, p: nat, d: nat, w: nat)
    requires job.Valid(fab) && p < |job.phases| && d <= job.count && job.start <= w < job.start + d
    ensures forall e :: e in WordLog(job, fab, p, w) ==> e in PhaseLog(job, fab, p, d)
  {
    hide WordLog;
    if w < job.start + d - 1 {
      PhaseLogHas(job, fab, p, d - 1, w);
    }
  }

  ghost predicate FromWord(job: Job, fab: Fabric, n: nat, e: ErrorRecord)
    requires job.Valid(fab) && n <= |job.phases|
  {
    exists p: nat, w: nat :: p < n && job.Owns(w) && e in WordLog(job, fab, p, w)
  }

  lemma {:induction false} PhaseLogOnly(job: Job, fab: Fabric, p: nat, d: nat, e: ErrorRecord)
    requires job.Valid(fab) && p < |job.phases| && d <= job.count && e in PhaseLog(job, fab, p, d)
    ensures exists w: nat :: job.start <= w < job.start + d && e in WordLog(job, fab, p, w)
  {
    hide WordLog;
    if e in PhaseLog(job, fab, p, d - 1) {
      PhaseLogOnly(job, fab, p, d - 1, e);
    } else {
      assert e in WordLog(job, fab, p, job.start + d - 1);
    }
  }

  lemma {:induction false} PassLogOnly(job: Job, fab: Fabric, n: nat, e: ErrorRecord)
    requires job.Valid(fab) && n <= |job.phases| && e in PhasesLog(job, fab, n)
    ensures FromWord(job, fab, n, e)
  {
    hide WordLog, PhaseLog;
    if e in PhasesLog(job, fab, n - 1) {
      PassLogOnly(job, fab, n - 1, e);
    } else {
      PhaseLogOnly(job, fab, n - 1, job.count, e);
    }
  }

  /** e is logged before f: in an earlier phase, or at a lower word of the same one. */
  predicate Precedes(e: ErrorRecord, f: ErrorRecord) {
    Rank(e.phase) < Rank(f.phase) || (e.phase == f.phase && e.offset < f.offset)
  }

  ghost predicate Ordered(log: seq<ErrorRecord>) {
    forall i, j :: 0 <= i < j < |log| ==> Precedes(log[i], log[j])
  }

  lemma OrderedConcat(a: seq<ErrorRecord>, b: seq<ErrorRecord>)
    requires Ordered(a) && Ordered(b) && forall e, f :: e in a && f in b ==> Precedes(e, f)
    ensures Ordered(a + b)
  {}

  lemma {:induction false} PhaseLogOrdered(job: Job, fab: Fabric, p: nat, d: nat)
    requires job.Valid(fab) && p < |job.phases| && d <= job.count
    ensures Ordered(PhaseLog(job, fab, p, d))
  {
    hide ReadBack, Ordered;
    if d == 0 {
      assert Ordered([]) by { NothingOrdered(); }
    } else {
      var w := job.start + d - 1;
      var init, last := PhaseLog(job, fab, p, d - 1), WordLog(job, fab, p, w);
      PhaseLogOrdered(job, fab, p, d - 1);
      forall e, f | e in init && f in last
        ensures Precedes(e, f)
      {
        PhaseLogOnly(job, fab, p, d - 1, e);
      }
      ShortOrdered(last);
      OrderedConcat(init, last);
    }
  }

  lemma NothingOrdered()
    ensures Ordered([])
  {}

  lemma ShortOrdered(log: seq<ErrorRecord>)
    requires |log| <= 1
    ensures Ordered(log)
  {}

  lemma {:induction false} PassLogOrdered(job: Job, fab: Fabric, n: nat)
    requires job.Valid(fab) && n <= |job.phases|
    requires forall p, q :: 0 <= p < q < |job.phases| ==> Rank(job.phases[p]) < Rank(job.phases[q])
    ensures Ordered(PhasesLog(job, fab, n))
  {
    hide PhaseLog, Ordered, ReadBack, Rank;
    if n == 0 {
      NothingOrdered();
    } else {
      var init, last := PhasesLog(job, fab, n - 1), PhaseLog(job, fab, n - 1, job.count);
      PassLogOrdered(job, fab, n - 1);
      PhaseLogOrdered(job, fab, n - 1, job.count);
      forall e, f | e in init && f in last
        ensures Precedes(e, f)
      {
        PassLogOnly(job, fab, n - 1, e);
        PhaseLogOnly(job, fab, n - 1, job.count, f);
      }
      OrderedConcat(init, last);
    }
  }

  // ----- the laws

  /** What word w reads as once phase was stored in it. */
  function Sensed(cfg: Config, fab: Fabric, phase: Phase, w: nat): Word
    requires fab.Valid() && w < |fab.wires|
  {
    Sense(fab.stuckLow[w], fab.stuckHigh[w], ExpectedValue(cfg.seed, phase, cfg.pass, 8 * w))
  }

  /** The record says that word w failed in this phase, and how. */
  predicate Failed(e: ErrorRecord, cfg: Config, fab: Fabric, phase: Phase, w: nat)
    requires fab.Valid() && w < |fab.wires|
  {
    && e.mode == cfg.mode && e.seed == cfg.seed && e.pass == cfg.pass && e.workerId == cfg.workerId
    && e.phase == phase && e.offset == 8 * w
    && e.expected == ExpectedValue(cfg.seed, phase, cfg.pass, 8 * w) && e.actual == Sensed(cfg, fab, phase, w)
  }

  lemma {:induction false} WordLogSays(cfg: Config, fab: Fabric, p: nat, w: nat)
    requires fab.Valid() && cfg.workerId < cfg.workerCount && !cfg.inject && JobOn(cfg, fab).Owns(w)
    requires p < |PhasesOf(cfg.mode)|
    ensures var log, phase := WordLog(JobOn(cfg, fab), fab, p, w), PhasesOf(cfg.mode)[p];
      && (forall e :: e in log ==> Failed(e, cfg, fab, phase, w))
      && (log != [] <==> Sensed(cfg, fab, phase, w) != ExpectedValue(cfg.seed, phase, cfg.pass, 8 * w))
  {
    hide Sense, ExpectedValue, PhasesOf;
  }

  ghost predicate Logged(log: seq<ErrorRecord>, cfg: Config, fab: Fabric, phase: Phase, w: nat)
    requires fab.Valid() && w < |fab.wires|
  {
    exists e :: e in log && Failed(e, cfg, fab, phase, w)
  }

  ghost predicate FailedSomewhere(e: ErrorRecord, cfg: Config, fab: Fabric, job: Job)
    requires job.Valid(fab)
  {
    exists w: nat :: job.Owns(w) && Failed(e, cfg, fab, e.phase, w)
  }

  lemma {:induction false} RecordSays(cfg: Config, fab: Fabric, e: ErrorRecord) returns (w: nat)
    requires fab.Valid() && cfg.workerId < cfg.workerCount && !cfg.inject
    requires e in PhasesLog(JobOn(cfg, fab), fab, |JobOn(cfg, fab).phases|)
    ensures JobOn(cfg, fab).Owns(w) && Runs(cfg.mode, e.phase) && Failed(e, cfg, fab, e.phase, w)
    ensures Sensed(cfg, fab, e.phase, w) != ExpectedValue(cfg.seed, e.phase, cfg.pass, 8 * w)
  {
    hide PhasesLog, WordLog, PhasesOf, Sensed, ExpectedValue, Runs;
    var job := JobOn(cfg, fab);
    PassLogOnly(job, fab, |job.phases|, e);
    var p: nat, v: nat :| p < |job.phases| && job.Owns(v) && e in WordLog(job, fab, p, v);
    WordLogSays(cfg, fab, p, v);
    PhasesAreRanked(cfg.mode);
    w := v;
  }

  lemma {:induction false} FailureIsLogged(cfg: Config, fab: Fabric, phase: Phase, w: nat)
    requires fab.Valid() && cfg.workerId < cfg.workerCount && !cfg.inject && JobOn(cfg, fab).Owns(w)
    requires Runs(cfg.mode, phase) && Sensed(cfg, fab, phase, w) != ExpectedValue(cfg.seed, phase, cfg.pass, 8 * w)
    ensures Logged(PhasesLog(JobOn(cfg, fab), fab, |JobOn(cfg, fab).phases|), cfg, fab, phase, w)
  {
    hide PhasesLog, PhaseLog, WordLog, PhasesOf, Sensed, ExpectedValue, Failed, Runs;
    var job := JobOn(cfg, fab);
    var p := PhaseHasPlace(cfg.mode, phase);
    WordLogSays(cfg, fab, p, w);
    var e := WordLog(job, fab, p, w)[0];
    PhaseLogHas(job, fab, p, job.count, w);
    PassContainsPhase(job, fab, |job.phases|, p, e);
  }

  /**
   A finished pass has run exactly the phases of its mode: in each of them, and in no other, it logged exactly
   the words that do not read back what the phase stores there, in order of phases and then words.
   */
  lemma {:induction false} PassErrors(plain: Config, fab: Fabric, cells: seq<Word>, stop: nat -> bool)
    requires fab.Valid() && fab.Unaliased() && |cells| == fab.cellCount && plain.workerId < plain.workerCount
    requires !plain.inject && PassEnd(plain, fab, cells, stop).1.pc.Finished?
    ensures var job, log := JobOn(plain, fab), PassEnd(plain, fab, cells, stop).1.log;
      && Ordered(log)
      && (forall e :: e in log ==> Runs(plain.mode, e.phase) && FailedSomewhere(e, plain, fab, job))
      && (forall phase, w: nat :: Runs(plain.mode, phase) && job.Owns(w) ==>
            (Logged(log, plain, fab, phase, w) <==>
             Sensed(plain, fab, phase, w) != ExpectedValue(plain.seed, phase, plain.pass, 8 * w)))
  {
    hide PassEnd, PhasesLog, Ordered, PhasesOf, Rank, Sensed, ExpectedValue, Runs;
    var job, log := JobOn(plain, fab), PassEnd(plain, fab, cells, stop).1.log;
    FinishedLog(plain, fab, cells, stop);
    PhasesAreRanked(plain.mode);
    PassLogOrdered(job, fab, |job.phases|);
    forall e | e in log
      ensures Runs(plain.mode, e.phase) && FailedSomewhere(e, plain, fab, job)
    {
      var w := RecordSays(plain, fab, e);
    }
    forall phase, w: nat | Runs(plain.mode, phase) && job.Owns(w)
      ensures Logged(log, plain, fab, phase, w) <==>
        Sensed(plain, fab, phase, w) != ExpectedValue(plain.seed, phase, plain.pass, 8 * w)
    {
      if Logged(log, plain, fab, phase, w) {
        var e :| e in log && Failed(e, plain, fab, phase, w);
        var v := RecordSays(plain, fab, e);
      } else if Sensed(plain, fab, phase, w) != ExpectedValue(plain.seed, phase, plain.pass, 8 * w) {
        FailureIsLogged(plain, fab, phase, w);
      }
    }
  }

  /** The last phase: RANDOM in Quick Check, WALKING in the load modes. */
  function LastPhase(mode: Mode): Phase {
    if mode.Quick? then Random else Walking
  }

  /** A finished pass leaves the last phase in every word of its slice, over any stuck bits, and shows it. */
  lemma {:induction false} PassLeaves(plain: Config, fab: Fabric, cells: seq<Word>, stop: nat -> bool)
    requires fab.Valid() && fab.Unaliased() && |cells| == fab.cellCount && plain.workerId < plain.workerCount
    requires !plain.inject && PassEnd(plain, fab, cells, stop).1.pc.Finished?
    ensures var job, end := JobOn(plain, fab), PassEnd(plain, fab, cells, stop);
      && end.1.current == LastPhase(plain.mode)
      && forall w: nat :: job.Owns(w) ==>
           end.0[fab.wires[w]] == ExpectedValue(plain.seed, LastPhase(plain.mode), plain.pass, 8 * w)
  {
    hide PassEnd, Exec, Begin, ExpectedValue, PhasesOf, HoldsAll, NoDrift, RunToEnd, PhaseShown;
    var job, end := JobOn(plain, fab), PassEnd(plain, fab, cells, stop);
    PhasesAreRanked(plain.mode);
    PassEndIs(plain, fab, cells, stop);
    FreshShows(job);
    ShowsItsPhase(job, fab, cells, Fresh(job), stop, 0);
    FinishedShows(job);
    var evs := PassIsAnInterleaving(plain, fab, cells, stop);
    ExecTracks([job], fab, cells, evs);
    DriftStaysZero([job], fab, cells, evs);
    var wd := Exec([job], fab, Begin([job], fab, cells), evs);
    assert HoldsAll([job][0], fab, wd.cells, wd.drift, wd.workers[0].pc);
    forall w: nat | job.Owns(w)
      ensures end.0[fab.wires[w]] == ExpectedValue(plain.seed, LastPhase(plain.mode), plain.pass, 8 * w)
    {
      FinishedHolds(job, fab, wd.cells, wd.drift, w);
    }
  }

  lemma {:induction false} FreshShows(job: Job)
    requires |job.phases| > 0
    ensures Fresh(job).current == PhaseShown(job, Fresh(job).pc)
  {}

  lemma {:induction false} FinishedShows(job: Job)
    requires |job.phases| > 0
    ensures PhaseShown(job, Finished) == job.phases[|job.phases| - 1]
  {}

  lemma {:induction false} FinishedHolds(job: Job, fab: Fabric, cells: seq<Word>, drift: seq<Word>, w: nat)
    requires job.Valid(fab) && |cells| == fab.cellCount && |drift| == |fab.wires| && !job.cfg.inject && job.Owns(w)
    requires HoldsAll(job, fab, cells, drift, Finished) && NoDrift(drift)
    ensures cells[fab.wires[w]] == job.patterns[|job.phases| - 1](w)
  {
    hide Xor;
    assert Holds(job, fab, cells, drift, Finished, w);
    XorUnit(job.patterns[|job.phases| - 1](w));
  }

  /** And has written and verified its slice once a phase: three times in Quick Check, eight times in the load modes. */
  lemma {:induction false} PassBytes(plain: Config, fab: Fabric, cells: seq<Word>, stop: nat -> bool)
    requires fab.Valid() && fab.Unaliased() && |cells| == fab.cellCount && plain.workerId < plain.workerCount
    requires PassEnd(plain, fab, cells, stop).1.pc.Finished?
    ensures var end, bytes := PassEnd(plain, fab, cells, stop).1, 8 * JobOn(plain, fab).count;
      && end.written == end.verified == (if plain.mode.Quick? then 3 else 8) * bytes
      && end.progress == 2 * end.written
  {
    hide PassEnd, Exec, Begin, PhasesOf;
    var job := JobOn(plain, fab);
    PhasesAreRanked(plain.mode);
    var evs := PassIsAnInterleaving(plain, fab, cells, stop);
    ExecAccounts([job], fab, cells, evs, 0);
  }

  /**
   A pass polls once before each phase and once before each MiB of either half: it finishes exactly if none
   of these polls tells it to stop.
   */
  lemma {:induction false} PassPolls(plain: Config, fab: Fabric, cells: seq<Word>, stop: nat -> bool)
    requires fab.Valid() && |cells| == fab.cellCount && plain.workerId < plain.workerCount
    ensures var polls := (if plain.mode.Quick? then 3 else 8) * (1 + 2 * ((JobOn(plain, fab).count + 131071) / 131072));
      PassEnd(plain, fab, cells, stop).1.pc.Finished? <==> forall u :: 0 <= u < polls ==> !stop(u)
  {
    hide PassEnd, RunToEnd, PhasesOf;
    var job := JobOn(plain, fab);
    PhasesAreRanked(plain.mode);
    PassEndIs(plain, fab, cells, stop);
    FinishesUnlessStopped(job, fab, cells, Fresh(job), stop, 0);
  }

  // ----- the records of a crew, whatever strikes it

  /** The record is of this worker, and names a word of its slice by what the phase stores there. */
  ghost predicate RecordOf(e: ErrorRecord, mode: Mode, seed: Word, pass: nat, i: nat, job: Job) {
    && e.mode == mode && e.seed == seed && e.pass == pass && e.workerId == i && Runs(mode, e.phase)
    && e.offset % 8 == 0 && job.Owns(e.offset / 8)
    && e.expected == ExpectedValue(seed, e.phase, pass, e.offset) && e.actual != e.expected
  }

  /** In every reachable state, under any upsets and stuck bits, each worker has logged only such records. */
  lemma {:induction false} CrewRecords(mode: Mode, seed: Word, pass: nat, workers: nat, fab: Fabric, cells: seq<Word>,
      evs: seq<Event>, i: nat)
    requires fab.Valid() && fab.Unaliased() && workers > 0 && |cells| == fab.cellCount && i < workers
    requires AllPossible(CrewOn(mode, seed, pass, workers, fab), fab, evs)
    ensures var jobs := CrewOn(mode, seed, pass, workers, fab);
      forall e :: e in Exec(jobs, fab, Begin(jobs, fab, cells), evs).workers[i].log ==>
        RecordOf(e, mode, seed, pass, i, jobs[i])
  {
    hide Exec, Begin, ExpectedValue, Genuine, Runs, PhasesOf;
    var jobs := CrewOn(mode, seed, pass, workers, fab);
    LogsAreGenuine(jobs, fab, cells, evs, i);
    var wd := Exec(jobs, fab, Begin(jobs, fab, cells), evs);
    forall e | e in wd.workers[i].log
      ensures RecordOf(e, mode, seed, pass, i, jobs[i])
    {
      GenuineRecord(mode, seed, pass, workers, fab, wd.seen, i, e);
    }
  }

  lemma {:induction false} GenuineRecord(mode: Mode, seed: Word, pass: nat, workers: nat, fab: Fabric,
      seen: map<Mark, Word>, i: nat, e: ErrorRecord)
    requires fab.Valid() && fab.Unaliased() && workers > 0 && i < workers
    requires Genuine(CrewOn(mode, seed, pass, workers, fab)[i], fab, seen, e)
    ensures RecordOf(e, mode, seed, pass, i, CrewOn(mode, seed, pass, workers, fab)[i])
  {
    hide Reading, At, ExpectedValue, PhasesOf, Runs, SplitBlockStart, SplitBlockSize;
    var job := CrewOn(mode, seed, pass, workers, fab)[i];
    PhasesAreRanked(mode);
    var p: nat, w: nat :| p < |job.phases| && job.Owns(w) && Tells(job, fab, seen, p, w, e);
    assert 8 * w % 8 == 0 && 8 * w / 8 == w;
  }
}
