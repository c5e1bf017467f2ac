/**
 The jobs `nxmt_runner_run_pass` derives from its configuration, and what a whole crew of workers
 achieves together: their slices partition the arena, so the results above apply to every worker count.
 */
module Crews {
  import opened Words
  import opened Patterns
  import opened Arenas
  import opened Memories
  import opened ChunkVerify
  import opened Machine
  import opened Detection
  import opened Liveness
  import opened StuckBits
  import opened Progress

  function PatternsOf(mode: Mode, seed: Word, pass: nat): (r: seq<nat -> Word>)
    ensures |r| == |PhasesOf(mode)|
    ensures forall p :: 0 <= p < |r| ==> r[p] == Pattern(seed, PhasesOf(mode)[p], pass)
  {
    seq(|PhasesOf(mode)|, p requires 0 <= p < |PhasesOf(mode)| => Pattern(seed, PhasesOf(mode)[p], pass))
  }

  /** One worker's pass over an arena of so many words. */
  function JobFor(cfg: Config, words: nat): (job: Job)
    ensures 0 < |job.phases| == |job.patterns| <= 8
  {
    Job(cfg, PhasesOf(cfg.mode), PatternsOf(cfg.mode, cfg.seed, cfg.pass), Pressure,
        SplitBlockStart(words, cfg.workerCount, cfg.workerId), SplitBlockSize(words, cfg.workerCount, cfg.workerId))
  }

  /** All the workers of one pass. */
  function Crew(mode: Mode, seed: Word, pass: nat, workers: nat, words: nat): (jobs: seq<Job>)
    ensures |jobs| == workers
  {
    seq(workers, i requires 0 <= i < workers => JobFor(Config(mode, seed, pass, i, workers, false), words))
  }

  lemma {:induction false} SliceFits(cfg: Config, fab: Fabric)
    requires fab.Valid() && cfg.workerId < cfg.workerCount
    ensures JobFor(cfg, |fab.wires|).Valid(fab)
  {
    SplitStep(|fab.wires|, cfg.workerCount, cfg.workerId);
    SplitWithin(|fab.wires|, cfg.workerCount, cfg.workerId + 1);
  }

  /** The slices of a crew are disjoint and cover the arena, for every number of workers. */
  lemma {:induction false} CrewIsTeam(mode: Mode, seed: Word, pass: nat, workers: nat, fab: Fabric)
    requires fab.Valid() && fab.Unaliased() && workers > 0
    ensures var jobs := Crew(mode, seed, pass, workers, |fab.wires|); Team(jobs, fab) && Covers(jobs, fab)
  {
    hide SplitBlockStart, SplitBlockSize;
    var words := |fab.wires|;
    var jobs := Crew(mode, seed, pass, workers, words);
    forall i | 0 <= i < |jobs|
      ensures jobs[i].Valid(fab)
    {
      SliceFits(Config(mode, seed, pass, i, workers, false), fab);
    }
    forall i, j, w: nat | 0 <= i < |jobs| && 0 <= j < |jobs| && jobs[i].Owns(w) && jobs[j].Owns(w)
      ensures i == j
    {
      if i < j {
        SplitOrdered(words, workers, i, j);
      } else if j < i {
        SplitOrdered(words, workers, j, i);
      }
    }
    forall w: nat | w < words
      ensures Owned(jobs, w)
    {
      SplitEnds(words, workers);
      var i := OwnerFrom(words, workers, w, 0);
      assert jobs[i].Owns(w);
    }
  }

  /** The job of one worker on a given memory. */
  ghost function JobOn(cfg: Config, fab: Fabric): (job: Job)
    requires fab.Valid() && cfg.workerId < cfg.workerCount
    ensures job == JobFor(cfg, |fab.wires|) && job.Valid(fab)
  {
    SliceFits(cfg, fab);
    JobFor(cfg, |fab.wires|)
  }

  /** Worker by worker the slices run through the arena from its first word to its last, the longer ones first. */
  lemma {:induction false} SlicesInOrder(mode: Mode, seed: Word, pass: nat, workers: nat, words: nat, i: nat)
    requires i < workers
    ensures var jobs := Crew(mode, seed, pass, workers, words);
      && (i == 0 ==> jobs[i].start == 0)
      && jobs[i].start + jobs[i].count == (if i + 1 < workers then jobs[i + 1].start else words)
      && jobs[i].count == (words + workers - 1 - i) / workers
  {
    hide SplitBlockStart, SplitBlockSize;
    SplitEnds(words, workers);
    SplitStep(words, workers, i);
    SplitFavoursFirst(words, workers, i);
  }

  /** The jobs of a crew on a given memory. */
  ghost function CrewOn(mode: Mode, seed: Word, pass: nat, workers: nat, fab: Fabric): (jobs: seq<Job>)
    requires fab.Valid() && fab.Unaliased() && workers > 0
    ensures jobs == Crew(mode, seed, pass, workers, |fab.wires|) && Team(jobs, fab) && Covers(jobs, fab)
  {
    CrewIsTeam(mode, seed, pass, workers, fab);
    Crew(mode, seed, pass, workers, |fab.wires|)
  }

  /** What the last phase of a mode leaves behind. */
  function LastPattern(mode: Mode, seed: Word, pass: nat): nat -> Word {
    Pattern(seed, PhasesOf(mode)[|PhasesOf(mode)| - 1], pass)
  }

  /**
   On fault-free memory a crew of any size, from any contents and in any interleaving, logs nothing
   and leaves the same arena behind: the specified word of the mode's last phase, everywhere.
   */
  lemma {:induction false} WorkerCountDoesNotMatter(mode: Mode, seed: Word, pass: nat, workers: nat, fab: Fabric,
      cells: seq<Word>, evs: seq<Event>)
    requires fab.Valid() && fab.Unaliased() && fab.NoStuckBits() && workers > 0 && |cells| == fab.cellCount
    requires AllPossible(CrewOn(mode, seed, pass, workers, fab), fab, evs) && NoUpsets(evs)
    ensures var jobs := CrewOn(mode, seed, pass, workers, fab);
      var wd := Exec(jobs, fab, Begin(jobs, fab, cells), evs);
      && (forall i :: 0 <= i < workers ==> wd.workers[i].log == [])
      && (NeverStopped(evs) && EnoughTurns(jobs, evs) ==> AllFinished(wd))
      && (AllFinished(wd) ==> forall w: nat :: w < |fab.wires| ==>
            wd.cells[fab.wires[w]] == ExpectedValue(seed, PhasesOf(mode)[|PhasesOf(mode)| - 1], pass, 8 * w))
  {
    hide Exec, Begin, Turns, PassFuel;
    var jobs := CrewOn(mode, seed, pass, workers, fab);
    var wd := Exec(jobs, fab, Begin(jobs, fab, cells), evs);
    forall i | 0 <= i < workers
      ensures wd.workers[i].log == []
    {
      NoFalseAlarms(jobs, fab, cells, evs, i);
    }
    if NeverStopped(evs) && EnoughTurns(jobs, evs) {
      CrewFinishes(jobs, fab, cells, evs);
    }
    if AllFinished(wd) {
      CrewEndsWith(mode, seed, pass, workers, |fab.wires|);
      forall w: nat | w < |fab.wires|
        ensures wd.cells[fab.wires[w]] == ExpectedValue(seed, PhasesOf(mode)[|PhasesOf(mode)| - 1], pass, 8 * w)
      {
        FinalContents(jobs, fab, cells, evs, LastPattern(mode, seed, pass), w);
      }
    }
  }

  lemma CrewEndsWith(mode: Mode, seed: Word, pass: nat, workers: nat, words: nat)
    ensures EndsWith(Crew(mode, seed, pass, workers, words), LastPattern(mode, seed, pass))
  {}

  /** Memory Load and Extreme open with FIXED_A and FIXED_5, so the stuck-bit result covers them. */
  lemma {:induction false} LoadModesDriveBothWays(cfg: Config, words: nat)
    requires !cfg.mode.Quick?
    ensures DrivesBothWays(JobFor(cfg, words))
  {
    assert PhasesOf(cfg.mode)[0] == FixedA && PhasesOf(cfg.mode)[1] == Fixed5;
  }

  /** The work of a crew is what the session computes as the pass total: phases * 2 * arena bytes. */
  lemma {:induction false} CrewWork(mode: Mode, seed: Word, pass: nat, workers: nat, words: nat, n: nat)
    requires n <= workers && workers > 0
    ensures TotalWork(Crew(mode, seed, pass, workers, words)[..n])
         == 16 * SplitBlockStart(words, workers, n) * |PhasesOf(mode)|
  {
    hide SplitBlockStart, SplitBlockSize, PhasesOf;
    if n == 0 {
      SplitEnds(words, workers);
    } else {
      var jobs := Crew(mode, seed, pass, workers, words);
      CrewWork(mode, seed, pass, workers, words, n - 1);
      SplitStep(words, workers, n - 1);
      assert jobs[..n][..n - 1] == jobs[..n - 1];
      var a, b, k := SplitBlockStart(words, workers, n - 1), SplitBlockSize(words, workers, n - 1), |PhasesOf(mode)|;
      assert 16 * (a + b) * k == 16 * a * k + 16 * b * k;
    }
  }

  /** At every point of every run, progress stays within phases * 2 * bytes, and reaches it exactly when all is done. */
  lemma {:induction false} CrewProgress(mode: Mode, seed: Word, pass: nat, workers: nat, fab: Fabric,
      cells: seq<Word>, evs: seq<Event>)
    requires fab.Valid() && fab.Unaliased() && workers > 0 && |cells| == fab.cellCount
    requires AllPossible(CrewOn(mode, seed, pass, workers, fab), fab, evs)
    ensures var jobs := CrewOn(mode, seed, pass, workers, fab);
      var done := TotalProgress(Exec(jobs, fab, Begin(jobs, fab, cells), evs).workers);
      var goal := |PhasesOf(mode)| * 2 * (8 * |fab.wires|);
      && done <= goal
      && (done == goal <==> NoneOutstanding(jobs, Exec(jobs, fab, Begin(jobs, fab, cells), evs).workers))
  {
    hide Exec, Begin, TotalProgress, TotalWork, NoneOutstanding, SplitBlockStart, Crew, PhasesOf;
    var jobs := CrewOn(mode, seed, pass, workers, fab);
    ProgressReachesGoal(jobs, fab, cells, evs);
    CrewWork(mode, seed, pass, workers, |fab.wires|, workers);
    SplitEnds(|fab.wires|, workers);
    assert jobs[..workers] == jobs;
  }
}
