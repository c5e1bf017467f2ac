/**
 A crew that nobody stops finishes: every step of a worker brings it nearer its end, however the steps
 of the workers interleave and whatever upsets strike.
 */
module Liveness {
  import opened Words
  import opened Memories
  import opened Machine
  import opened Detection

  /** The steps worker i was given. */
  function Turns(evs: seq<Event>, i: nat): nat {
    if evs == [] then 0
    else
      var ev := evs[|evs| - 1];
      Turns(evs[..|evs| - 1], i) + if ev.Work? && ev.i == i then 1 else 0
  }

  /** A worker never stopped has finished, or has burnt a unit of its fuel per turn. */
  ghost predicate Advances(job: Job, pc: Pc, turns: nat)
    requires Fits(job, pc)
  {
    pc.Finished? || (Running(pc) && Fuel(job, pc) + turns <= PassFuel(job))
  }

  lemma {:induction false} FreshAdvances(job: Job, fab: Fabric)
    requires job.Valid(fab)
    ensures Advances(job, Fresh(job).pc, 0)
  {
    var n, b := |job.phases| - 1, PhaseFuel(job);
    assert (n + 1) * b == n * b + b;
  }

  lemma {:induction false} StepAdvances(job: Job, fab: Fabric, cells: seq<Word>, wk: Worker, turns: nat)
    requires job.Valid(fab) && |cells| == fab.cellCount && Running(wk.pc) && Fits(job, wk.pc)
    requires Advances(job, wk.pc, turns)
    ensures Advances(job, Step(job, fab, cells, wk, false).1.pc, turns + 1)
  {
    hide Fuel, PassFuel, StepCells, WriteStep, VerifyStep;
    StepBurns(job, fab, cells, wk, false);
    NotStopped(job, fab, cells, wk);
  }

  lemma {:induction false} NotStopped(job: Job, fab: Fabric, cells: seq<Word>, wk: Worker)
    requires job.Valid(fab) && |cells| == fab.cellCount && Running(wk.pc) && Fits(job, wk.pc)
    ensures !Step(job, fab, cells, wk, false).1.pc.Stopped?
  {
    hide StepCells, Load, Pressed, ErrorAt;
  }

  lemma {:induction false} ExecAdvances(jobs: seq<Job>, fab: Fabric, cells: seq<Word>, evs: seq<Event>, i: nat)
    requires Team(jobs, fab) && |cells| == fab.cellCount && AllPossible(jobs, fab, evs) && NeverStopped(evs)
    requires i < |jobs|
    ensures Advances(jobs[i], Exec(jobs, fab, Begin(jobs, fab, cells), evs).workers[i].pc, Turns(evs, i))
  {
    hide Step, DriftAfter, SeenAfter, Advances, Xor;
    if evs == [] {
      FreshAdvances(jobs[i], fab);
    } else {
      var init, ev := evs[..|evs| - 1], evs[|evs| - 1];
      ExecAdvances(jobs, fab, cells, init, i);
      var wd := Exec(jobs, fab, Begin(jobs, fab, cells), init);
      if ev.Work? && ev.i == i {
        if Running(wd.workers[i].pc) {
          StepAdvances(jobs[i], fab, wd.cells, wd.workers[i], Turns(init, i));
        } else {
          FinishedAdvances(jobs[i], wd.workers[i].pc, Turns(init, i));
        }
      }
    }
  }

  lemma {:induction false} FinishedAdvances(job: Job, pc: Pc, turns: nat)
    requires Fits(job, pc) && !Running(pc) && Advances(job, pc, turns)
    ensures Advances(job, pc, turns + 1)
  {}

  lemma {:induction false} RunningHasFuel(job: Job, fab: Fabric, cells: seq<Word>, wk: Worker)
    requires job.Valid(fab) && |cells| == fab.cellCount && Running(wk.pc) && Fits(job, wk.pc)
    ensures Fuel(job, wk.pc) > 0
  {
    hide Step, Fuel;
    StepBurns(job, fab, cells, wk, false);
  }

  /** Every worker was given enough turns for its pass: phases * (7 * words + 2). */
  ghost predicate EnoughTurns(jobs: seq<Job>, evs: seq<Event>) {
    forall i :: 0 <= i < |jobs| ==> Turns(evs, i) >= PassFuel(jobs[i])
  }

  /**
   A crew that is never stopped finishes once every worker has had its turns, in any interleaving and under
   any upsets.
   */
  lemma {:induction false} CrewFinishes(jobs: seq<Job>, fab: Fabric, cells: seq<Word>, evs: seq<Event>)
    requires Team(jobs, fab) && |cells| == fab.cellCount && AllPossible(jobs, fab, evs)
    requires NeverStopped(evs) && EnoughTurns(jobs, evs)
    ensures AllFinished(Exec(jobs, fab, Begin(jobs, fab, cells), evs))
  {
    hide Exec, Begin, Fuel, PassFuel, Turns;
    var wd := Exec(jobs, fab, Begin(jobs, fab, cells), evs);
    forall i | 0 <= i < |jobs|
      ensures wd.workers[i].pc == Finished
    {
      ExecAdvances(jobs, fab, cells, evs, i);
      if Running(wd.workers[i].pc) {
        RunningHasFuel(jobs[i], fab, wd.cells, wd.workers[i]);
      }
    }
  }

  /** Without upsets or injection such a crew leaves the last phase's value in every word. */
  lemma {:induction false} UnstoppedContents(jobs: seq<Job>, fab: Fabric, cells: seq<Word>, evs: seq<Event>,
      last: nat -> Word, w: nat)
    requires Team(jobs, fab) && |cells| == fab.cellCount && AllPossible(jobs, fab, evs) && NoUpsets(evs)
    requires Covers(jobs, fab) && EndsWith(jobs, last) && w < |fab.wires|
    requires NeverStopped(evs) && EnoughTurns(jobs, evs)
    ensures Exec(jobs, fab, Begin(jobs, fab, cells), evs).cells[fab.wires[w]] == last(w)
  {
    hide Exec, Begin, Turns, PassFuel;
    CrewFinishes(jobs, fab, cells, evs);
    FinalContents(jobs, fab, cells, evs, last, w);
  }
}
