/**
 Threads against a single thread. Without upsets a worker sees only its own slice, so in every interleaving
 of word accesses it ends exactly as it would running alone from the start of the pass, under some schedule
 of its stop flag. Running the workers one after the other is therefore as good as any interleaving.
 */
module Reduction {
  import opened Words
  import opened Memories
  import opened Machine
  import opened Tracking
  import opened Solo

  /** The cells behind the job's slice agree. */
  ghost predicate AgreeOn(job: Job, fab: Fabric, cells: seq<Word>, cells': seq<Word>)
    requires job.Valid(fab) && |cells| == |cells'| == fab.cellCount
  {
    forall w: nat :: job.Owns(w) ==> cells[fab.wires[w]] == cells'[fab.wires[w]]
  }

  lemma {:induction false} LoadIsLocal(job: Job, fab: Fabric, cells: seq<Word>, cells': seq<Word>, w: nat)
    requires job.Valid(fab) && |cells| == |cells'| == fab.cellCount && AgreeOn(job, fab, cells, cells') && job.Owns(w)
    ensures Load(fab, cells, w) == Load(fab, cells', w)
  {
    hide Sense;
  }

  lemma {:induction false} WorkerIsLocal(job: Job, fab: Fabric, cells: seq<Word>, cells': seq<Word>, wk: Worker)
    requires job.Valid(fab) && |cells| == |cells'| == fab.cellCount && AgreeOn(job, fab, cells, cells')
    requires Running(wk.pc) && Fits(job, wk.pc)
    ensures StepWorker(job, fab, cells, wk) == StepWorker(job, fab, cells', wk)
  {
    hide Load, Xor, AgreeOn, EndStores, EndWrite, EndErrors, EndVerify, EnterVerify, EnterPhase;
    if !Polls(wk.pc) && !wk.pc.Injecting? {
      LoadIsLocal(job, fab, cells, cells', WordAt(job, wk.pc));
    }
  }

  lemma {:induction false} CellsAreLocal(job: Job, fab: Fabric, cells: seq<Word>, cells': seq<Word>, pc: Pc)
    requires job.Valid(fab) && |cells| == |cells'| == fab.cellCount && AgreeOn(job, fab, cells, cells') && Fits(job, pc)
    ensures AgreeOn(job, fab, StepCells(job, fab, cells, pc), StepCells(job, fab, cells', pc))
  {
    hide Load, Xor;
    if pc.Injecting? {
      LoadIsLocal(job, fab, cells, cells', job.start);
    }
  }

  /** A step depends on the worker's own slice alone, and changes it in the same way. */
  lemma {:induction false} StepIsLocal(job: Job, fab: Fabric, cells: seq<Word>, cells': seq<Word>, wk: Worker,
      stop: bool)
    requires job.Valid(fab) && |cells| == |cells'| == fab.cellCount && AgreeOn(job, fab, cells, cells')
    requires Running(wk.pc) && Fits(job, wk.pc)
    ensures Step(job, fab, cells, wk, stop).1 == Step(job, fab, cells', wk, stop).1
    ensures AgreeOn(job, fab, Step(job, fab, cells, wk, stop).0, Step(job, fab, cells', wk, stop).0)
  {
    hide StepWorker, StepCells, AgreeOn;
    WorkerIsLocal(job, fab, cells, cells', wk);
    CellsAreLocal(job, fab, cells, cells', wk.pc);
  }

  lemma {:induction false} LoneRunIsLocal(job: Job, fab: Fabric, cells: seq<Word>, cells': seq<Word>, wk: Worker,
      stop: nat -> bool, t: nat)
    requires job.Valid(fab) && |cells| == |cells'| == fab.cellCount && AgreeOn(job, fab, cells, cells')
    requires Fits(job, wk.pc)
    ensures StepsToEnd(job, fab, cells, wk, stop, t).1 == StepsToEnd(job, fab, cells', wk, stop, t).1
    ensures AgreeOn(job, fab, StepsToEnd(job, fab, cells, wk, stop, t).0, StepsToEnd(job, fab, cells', wk, stop, t).0)
    decreases Fuel(job, wk.pc)
  {
    hide Step, AgreeOn, Fuel;
    if Running(wk.pc) {
      StepIsLocal(job, fab, cells, cells', wk, stop(t));
      StepBurns(job, fab, cells, wk, stop(t));
      var next, next' := Step(job, fab, cells, wk, stop(t)), Step(job, fab, cells', wk, stop(t));
      LoneRunIsLocal(job, fab, next.0, next'.0, next.1, stop, if Polls(wk.pc) then t + 1 else t);
    }
  }

  // ----- the steps of one worker in an interleaving

  /** What the stop flag read at each of worker i's steps. */
  function StopsOf(evs: seq<Event>, i: nat): seq<bool> {
    if evs == [] then []
    else
      var ev := evs[|evs| - 1];
      StopsOf(evs[..|evs| - 1], i) + if ev.Work? && ev.i == i then [ev.stop] else []
  }

  /** So many steps of a worker alone. */
  function RunStops(job: Job, fab: Fabric, cells: seq<Word>, wk: Worker, stops: seq<bool>): (r: (seq<Word>, Worker))
    requires job.Valid(fab) && |cells| == fab.cellCount && Fits(job, wk.pc)
    ensures |r.0| == |cells| && Fits(job, r.1.pc)
    decreases |stops|
  {
    if stops == [] || !Running(wk.pc) then (cells, wk)
    else
      var next := Step(job, fab, cells, wk, stops[0]);
      RunStops(job, fab, next.0, next.1, stops[1..])
  }

  lemma {:induction false} OneMoreStop(job: Job, fab: Fabric, cells: seq<Word>, wk: Worker, stops: seq<bool>,
      stop: bool)
    requires job.Valid(fab) && |cells| == fab.cellCount && Fits(job, wk.pc)
    ensures var end := RunStops(job, fab, cells, wk, stops);
      RunStops(job, fab, cells, wk, stops + [stop])
      == if Running(end.1.pc) then Step(job, fab, end.0, end.1, stop) else end
    decreases |stops|
  {
    hide Step;
    var all := stops + [stop];
    if stops == [] {
      if Running(wk.pc) {
        var next := Step(job, fab, cells, wk, stop);
        assert all[1..] == [];
        assert RunStops(job, fab, next.0, next.1, []) == next;
      }
    } else if Running(wk.pc) {
      var next := Step(job, fab, cells, wk, stops[0]);
      assert all[1..] == stops[1..] + [stop];
      OneMoreStop(job, fab, next.0, next.1, stops[1..], stop);
    }
  }

  lemma {:induction false} AgreeElsewhere(job: Job, other: Job, fab: Fabric, cells: seq<Word>, alone: seq<Word>,
      wk: Worker, stop: bool)
    requires job.Valid(fab) && other.Valid(fab) && fab.Unaliased() && |cells| == |alone| == fab.cellCount
    requires Running(wk.pc) && Fits(other, wk.pc) && (forall w: nat :: !(job.Owns(w) && other.Owns(w)))
    requires AgreeOn(job, fab, cells, alone)
    ensures AgreeOn(job, fab, Step(other, fab, cells, wk, stop).0, alone)
  {
    hide Load, StepWorker, Xor;
  }

  /** In every interleaving without upsets a worker makes the steps it would make alone. */
  lemma {:induction false} InterleavedAlone(jobs: seq<Job>, fab: Fabric, cells: seq<Word>, evs: seq<Event>, i: nat)
    requires Team(jobs, fab) && |cells| == fab.cellCount && AllPossible(jobs, fab, evs) && NoUpsets(evs) && i < |jobs|
    ensures var wd := Exec(jobs, fab, Begin(jobs, fab, cells), evs);
      var alone := RunStops(jobs[i], fab, cells, Fresh(jobs[i]), StopsOf(evs, i));
      wd.workers[i] == alone.1 && AgreeOn(jobs[i], fab, wd.cells, alone.0)
  {
    hide Step, AgreeOn, DriftAfter, SeenAfter, RunStops, Xor;
    if evs == [] {
      NoStops(jobs[i], fab, cells, Fresh(jobs[i]));
    } else {
      var init, ev := evs[..|evs| - 1], evs[|evs| - 1];
      InterleavedAlone(jobs, fab, cells, init, i);
      var wd := Exec(jobs, fab, Begin(jobs, fab, cells), init);
      var alone := RunStops(jobs[i], fab, cells, Fresh(jobs[i]), StopsOf(init, i));
      assert ev.Work? && Possible(jobs, fab, ev);
      if ev.i == i {
        OneMoreStop(jobs[i], fab, cells, Fresh(jobs[i]), StopsOf(init, i), ev.stop);
        if Running(alone.1.pc) {
          StepIsLocal(jobs[i], fab, wd.cells, alone.0, alone.1, ev.stop);
        }
      } else {
        assert StopsOf(evs, i) == StopsOf(init, i);
        if Running(wd.workers[ev.i].pc) {
          AgreeElsewhere(jobs[i], jobs[ev.i], fab, wd.cells, alone.0, wd.workers[ev.i], ev.stop);
        }
      }
    }
  }

  lemma {:induction false} NoStops(job: Job, fab: Fabric, cells: seq<Word>, wk: Worker)
    requires job.Valid(fab) && |cells| == fab.cellCount && Fits(job, wk.pc)
    ensures RunStops(job, fab, cells, wk, []) == (cells, wk) && AgreeOn(job, fab, cells, cells)
  {}

  // ----- those steps are a run to the end under some schedule

  lemma {:induction false} SameSchedule(job: Job, fab: Fabric, cells: seq<Word>, wk: Worker, stop: nat -> bool,
      stop': nat -> bool, t: nat)
    requires job.Valid(fab) && |cells| == fab.cellCount && Fits(job, wk.pc)
    requires forall u: nat :: t <= u ==> stop(u) == stop'(u)
    ensures StepsToEnd(job, fab, cells, wk, stop, t) == StepsToEnd(job, fab, cells, wk, stop', t)
    decreases Fuel(job, wk.pc)
  {
    hide Step, Fuel;
    if Running(wk.pc) {
      StepBurns(job, fab, cells, wk, stop(t));
      var next := Step(job, fab, cells, wk, stop(t));
      SameSchedule(job, fab, next.0, next.1, stop, stop', if Polls(wk.pc) then t + 1 else t);
    }
  }

  lemma {:induction false} PollOnly(job: Job, fab: Fabric, cells: seq<Word>, wk: Worker, a: bool, b: bool)
    requires job.Valid(fab) && |cells| == fab.cellCount && Running(wk.pc) && Fits(job, wk.pc) && !Polls(wk.pc)
    ensures Step(job, fab, cells, wk, a) == Step(job, fab, cells, wk, b)
  {
    hide StepCells, StepWorker;
  }

  lemma {:induction false} ScheduleOf(job: Job, fab: Fabric, cells: seq<Word>, wk: Worker, stops: seq<bool>, t: nat)
      returns (stop: nat -> bool)
    requires job.Valid(fab) && |cells| == fab.cellCount && Fits(job, wk.pc)
    requires !Running(RunStops(job, fab, cells, wk, stops).1.pc)
    ensures StepsToEnd(job, fab, cells, wk, stop, t) == RunStops(job, fab, cells, wk, stops)
    decreases |stops|
  {
    hide Step, Fuel;
    stop := (_: nat) => false;
    if Running(wk.pc) {
      var next := Step(job, fab, cells, wk, stops[0]);
      if Polls(wk.pc) {
        var later := ScheduleOf(job, fab, next.0, next.1, stops[1..], t + 1);
        stop := (u: nat) => if u == t then stops[0] else later(u);
        SameSchedule(job, fab, next.0, next.1, stop, later, t + 1);
      } else {
        stop := ScheduleOf(job, fab, next.0, next.1, stops[1..], t);
        PollOnly(job, fab, cells, wk, stops[0], stop(t));
      }
    }
  }

  /**
   Every worker of every interleaving without upsets ends as it would alone, and leaves its slice as it would alone.
   */
  lemma {:induction false} EveryWorkerRunsAlone(jobs: seq<Job>, fab: Fabric, cells: seq<Word>, evs: seq<Event>, i: nat)
      returns (stop: nat -> bool)
    requires Team(jobs, fab) && |cells| == fab.cellCount && AllPossible(jobs, fab, evs) && NoUpsets(evs) && i < |jobs|
    requires !Running(Exec(jobs, fab, Begin(jobs, fab, cells), evs).workers[i].pc)
    ensures var wd := Exec(jobs, fab, Begin(jobs, fab, cells), evs);
      var end := RunToEnd(jobs[i], fab, cells, Fresh(jobs[i]), stop, 0);
      wd.workers[i] == end.1 && AgreeOn(jobs[i], fab, wd.cells, end.0)
  {
    hide Exec, Begin, RunStops, StepsToEnd, RunToEnd, AgreeOn;
    InterleavedAlone(jobs, fab, cells, evs, i);
    stop := ScheduleOf(jobs[i], fab, cells, Fresh(jobs[i]), StopsOf(evs, i), 0);
    StridesAreSteps(jobs[i], fab, cells, Fresh(jobs[i]), stop, 0);
  }

  /** A worker alone ends the same whatever the others have done to their slices. */
  lemma {:induction false} OthersDoNotMatter(job: Job, fab: Fabric, cells: seq<Word>, cells': seq<Word>,
      stop: nat -> bool)
    requires job.Valid(fab) && |cells| == |cells'| == fab.cellCount && AgreeOn(job, fab, cells, cells')
    ensures RunToEnd(job, fab, cells, Fresh(job), stop, 0).1 == RunToEnd(job, fab, cells', Fresh(job), stop, 0).1
  {
    hide StepsToEnd, RunToEnd, AgreeOn;
    LoneRunIsLocal(job, fab, cells, cells', Fresh(job), stop, 0);
    StridesAreSteps(job, fab, cells, Fresh(job), stop, 0);
    StridesAreSteps(job, fab, cells', Fresh(job), stop, 0);
  }

  /** A worker alone changes no cell outside its slice. */
  lemma {:induction false} LoneRunFrame(job: Job, fab: Fabric, cells: seq<Word>, wk: Worker, stop: nat -> bool,
      t: nat, w: nat)
    requires job.Valid(fab) && fab.Unaliased() && |cells| == fab.cellCount && Fits(job, wk.pc)
    requires w < |fab.wires| && !job.Owns(w)
    ensures StepsToEnd(job, fab, cells, wk, stop, t).0[fab.wires[w]] == cells[fab.wires[w]]
    decreases Fuel(job, wk.pc)
  {
    hide Step, Fuel;
    if Running(wk.pc) {
      StepFrame(job, fab, cells, wk, stop(t), w);
      StepBurns(job, fab, cells, wk, stop(t));
      var next := Step(job, fab, cells, wk, stop(t));
      LoneRunFrame(job, fab, next.0, next.1, stop, if Polls(wk.pc) then t + 1 else t, w);
    }
  }

  lemma {:induction false} AgreesAfterOther(job: Job, other: Job, fab: Fabric, cells: seq<Word>, cells': seq<Word>,
      stop: nat -> bool)
    requires job.Valid(fab) && other.Valid(fab) && fab.Unaliased() && |cells| == |cells'| == fab.cellCount
    requires AgreeOn(job, fab, cells, cells') && forall w: nat :: !(job.Owns(w) && other.Owns(w))
    ensures AgreeOn(job, fab, RunToEnd(other, fab, cells, Fresh(other), stop, 0).0, cells')
  {
    hide StepsToEnd, RunToEnd;
    StridesAreSteps(other, fab, cells, Fresh(other), stop, 0);
    forall w: nat | job.Owns(w)
      ensures RunToEnd(other, fab, cells, Fresh(other), stop, 0).0[fab.wires[w]] == cells'[fab.wires[w]]
    {
      LoneRunFrame(other, fab, cells, Fresh(other), stop, 0, w);
    }
  }
}
