/**
 What every interleaving keeps: each word of the arena holds the value its owner last gave it,
 up to the upsets that struck it since.
 */
module Tracking {
  import opened Words
  import opened Reports
  import opened Memories
  import opened Machine

  /** The value phase p leaves in word w of a worker's slice once its write half is over. */
  function Full(job: Job, fab: Fabric, p: nat, w: nat): Word
    requires job.Valid(fab) && p < |job.phases| && job.Owns(w)
  {
    var v := job.patterns[p](w);
    if job.cfg.inject && w == job.start then Xor(Sense(fab.stuckLow[w], fab.stuckHigh[w], v), INJECTED) else v
  }

  /** The words of its slice a worker has stored in its present phase. */
  function Stored(job: Job, pc: Pc): nat
    requires Fits(job, pc)
  {
    match pc
    case AtPhase(_) => 0
    case Writing(_, done) => done
    case Storing(_, done, k) => done + k
    case Folding(_, done, _) => done + NextChunk(job.count, done)
    case _ => job.count
  }

  function Earlier(job: Job, fab: Fabric, p: nat, w: nat): Option<Word>
    requires job.Valid(fab) && p <= |job.phases| && job.Owns(w)
  {
    if p == 0 then None else Some(Full(job, fab, p - 1, w))
  }

  /** The value a worker at pc has last given to word w of its slice, if any. */
  function Image(job: Job, fab: Fabric, pc: Pc, w: nat): Option<Word>
    requires job.Valid(fab) && Fits(job, pc) && job.Owns(w)
  {
    match pc
    case Verifying(p, _) => Some(Full(job, fab, p, w))
    case Scanning(p, _, _, _) => Some(Full(job, fab, p, w))
    case Recording(p, _, _) => Some(Full(job, fab, p, w))
    case Refolding(p, _, _) => Some(Full(job, fab, p, w))
    case Finished => Earlier(job, fab, |job.phases|, w)
    case Stopped(at) => Image(job, fab, at, w)
    case _ => if w - job.start < Stored(job, pc) then Some(job.patterns[pc.p](w)) else Earlier(job, fab, pc.p, w)
  }

  ghost predicate Holds(job: Job, fab: Fabric, cells: seq<Word>, drift: seq<Word>, pc: Pc, w: nat)
    requires job.Valid(fab) && Fits(job, pc) && job.Owns(w)
    requires |cells| == fab.cellCount && |drift| == |fab.wires|
  {
    var v := Image(job, fab, pc, w);
    v.Some? ==> cells[fab.wires[w]] == Xor(v.value, drift[w])
  }

  ghost predicate HoldsAll(job: Job, fab: Fabric, cells: seq<Word>, drift: seq<Word>, pc: Pc)
    requires job.Valid(fab) && Fits(job, pc)
    requires |cells| == fab.cellCount && |drift| == |fab.wires|
  {
    forall w: nat :: job.Owns(w) ==> Holds(job, fab, cells, drift, pc, w)
  }

  /** Every word holds its owner's last value, up to its drift. */
  ghost predicate Tracks(jobs: seq<Job>, fab: Fabric, wd: World)
    requires Team(jobs, fab) && Shaped(jobs, fab, wd)
  {
    forall i :: 0 <= i < |jobs| ==> HoldsAll(jobs[i], fab, wd.cells, wd.drift, wd.workers[i].pc)
  }

  ghost predicate NoDrift(drift: seq<Word>) {
    forall w :: 0 <= w < |drift| ==> drift[w] == 0
  }

  // ----- one worker's step

  /** A step changes no cell outside the worker's slice. */
  lemma {:induction false} StepFrame(job: Job, fab: Fabric, cells: seq<Word>, wk: Worker, stop: bool, w: nat)
    requires job.Valid(fab) && fab.Unaliased() && |cells| == fab.cellCount
    requires Running(wk.pc) && Fits(job, wk.pc)
    requires w < |fab.wires| && !job.Owns(w)
    ensures Step(job, fab, cells, wk, stop).0[fab.wires[w]] == cells[fab.wires[w]]
  {
    hide Load, StepWorker, Xor;
  }

  lemma {:induction false} XorExchange(a: Word, b: Word, c: Word)
    ensures Xor(Xor(a, b), c) == Xor(Xor(a, c), b)
  {
    hide Xor;
    XorAssociative(a, b, c);
    XorAssociative(a, c, b);
    XorCommutative(b, c);
  }

  /** Word w once d words of phase p are stored. */
  function StoredImage(job: Job, fab: Fabric, p: nat, d: nat, w: nat): Option<Word>
    requires job.Valid(fab) && p < |job.phases| && job.Owns(w)
  {
    if w - job.start < d then Some(job.patterns[p](w)) else Earlier(job, fab, p, w)
  }

  lemma {:induction false} EndWriteImage(job: Job, fab: Fabric, wk: Worker, p: nat, done: nat, w: nat)
    requires job.Valid(fab) && p < |job.phases| && ChunkAt(job, done) && job.Owns(w)
    ensures Image(job, fab, EndWrite(job, wk, p, done).pc, w)
         == StoredImage(job, fab, p, done + NextChunk(job.count, done), w)
  {
    hide Xor, Sense;
  }

  lemma {:induction false} EndStoresImage(job: Job, fab: Fabric, wk: Worker, p: nat, done: nat, w: nat)
    requires job.Valid(fab) && p < |job.phases| && ChunkAt(job, done) && job.Owns(w)
    ensures Image(job, fab, EndStores(job, wk, p, done).pc, w)
         == StoredImage(job, fab, p, done + NextChunk(job.count, done), w)
  {
    hide EndWrite, Full;
    EndWriteImage(job, fab, wk, p, done, w);
  }

  lemma {:induction false} EndVerifyImage(job: Job, fab: Fabric, wk: Worker, p: nat, done: nat, w: nat)
    requires job.Valid(fab) && p < |job.phases| && ChunkAt(job, done) && job.Owns(w)
    ensures Image(job, fab, EndVerify(job, wk, p, done).pc, w) == Some(Full(job, fab, p, w))
    ensures Image(job, fab, EndErrors(job, wk, p, done).pc, w) == Some(Full(job, fab, p, w))
  {
    hide Full;
  }

  lemma {:induction false} StoreHolds(job: Job, fab: Fabric, cells: seq<Word>, drift: seq<Word>, wk: Worker, w: nat)
    requires job.Valid(fab) && fab.Unaliased() && |cells| == fab.cellCount && |drift| == |fab.wires|
    requires wk.pc.Storing? && Fits(job, wk.pc) && job.Owns(w) && Holds(job, fab, cells, drift, wk.pc, w)
    ensures Holds(job, fab, StepCells(job, fab, cells, wk.pc), DriftAfter(job, fab, drift, wk.pc),
                  StepWorker(job, fab, cells, wk).pc, w)
  {
    hide Xor, Full, EndStores;
    EndStoresImage(job, fab, wk, wk.pc.p, wk.pc.done, w);
    XorUnit(job.patterns[wk.pc.p](w));
  }

  lemma {:induction false} InjectHolds(job: Job, fab: Fabric, cells: seq<Word>, drift: seq<Word>, wk: Worker, w: nat)
    requires job.Valid(fab) && fab.Unaliased() && |cells| == fab.cellCount && |drift| == |fab.wires|
    requires wk.pc.Injecting? && Fits(job, wk.pc) && job.Owns(w) && Holds(job, fab, cells, drift, wk.pc, w)
    ensures Holds(job, fab, StepCells(job, fab, cells, wk.pc), DriftAfter(job, fab, drift, wk.pc),
                  StepWorker(job, fab, cells, wk).pc, w)
  {
    hide Xor, Sense, Shown;
    if w == job.start {
      var f := job.patterns[wk.pc.p](w);
      var low, high := fab.stuckLow[w], fab.stuckHigh[w];
      SenseFlipped(low, high, f, drift[w]);
      XorExchange(Sense(low, high, f), Shown(low, high, drift[w]), INJECTED);
    }
  }

  /** Steps that store nothing leave every word's image as it was. */
  lemma {:induction false} ImageKept(job: Job, fab: Fabric, cells: seq<Word>, wk: Worker, w: nat)
    requires job.Valid(fab) && |cells| == fab.cellCount && job.Owns(w)
    requires Running(wk.pc) && Fits(job, wk.pc) && !wk.pc.Storing? && !wk.pc.Injecting?
    ensures Image(job, fab, StepWorker(job, fab, cells, wk).pc, w) == Image(job, fab, wk.pc, w)
  {
    hide Full, Load, Pressed, ErrorAt, EndWrite, EndVerify, EndErrors;
    match wk.pc
    case Folding(p, done, k) =>
      EndWriteImage(job, fab, wk.(pressure := Pressed(job, fab, cells, wk.pressure, job.start + done + k)), p, done, w);
    case Scanning(p, done, _, _) => EndVerifyImage(job, fab, wk, p, done, w);
    case Recording(p, done, k) =>
      EndVerifyImage(job, fab, wk.(log := wk.log + ErrorAt(job, fab, cells, p, job.start + done + k)), p, done, w);
    case Refolding(p, done, k) =>
      EndVerifyImage(job, fab, wk.(pressure := Pressed(job, fab, cells, wk.pressure, job.start + done + k)), p, done,
        w);
    case _ =>
  }

  /** A step keeps every word of the slice at its last value up to drift. */
  lemma {:induction false} StepHolds(job: Job, fab: Fabric, cells: seq<Word>, drift: seq<Word>, wk: Worker, stop: bool)
    requires job.Valid(fab) && fab.Unaliased() && |cells| == fab.cellCount && |drift| == |fab.wires|
    requires Running(wk.pc) && Fits(job, wk.pc)
    requires HoldsAll(job, fab, cells, drift, wk.pc)
    ensures var next := Step(job, fab, cells, wk, stop);
      HoldsAll(job, fab, next.0, DriftAfter(job, fab, drift, wk.pc), next.1.pc)
  {
    hide Xor, Sense, StepWorker, StepCells, DriftAfter, Full, Holds;
    var next := Step(job, fab, cells, wk, stop);
    forall w: nat | job.Owns(w)
      ensures Holds(job, fab, next.0, DriftAfter(job, fab, drift, wk.pc), next.1.pc, w)
    {
      assert Holds(job, fab, cells, drift, wk.pc, w);
      DriftOf(job, fab, drift, wk.pc);
      if stop && Polls(wk.pc) {
        StoppedHolds(job, fab, cells, drift, wk.pc, w);
      } else if wk.pc.Storing? {
        StoreHolds(job, fab, cells, drift, wk, w);
      } else if wk.pc.Injecting? {
        InjectHolds(job, fab, cells, drift, wk, w);
      } else {
        ImageKept(job, fab, cells, wk, w);
        CellsKept(job, fab, cells, wk.pc);
        ImageHolds(job, fab, cells, drift, wk.pc, next.1.pc, w);
      }
    }
  }

  lemma {:induction false} DriftOf(job: Job, fab: Fabric, drift: seq<Word>, pc: Pc)
    requires job.Valid(fab) && Fits(job, pc) && |drift| == |fab.wires|
    ensures !pc.Storing? && !pc.Injecting? ==> DriftAfter(job, fab, drift, pc) == drift
  {}

  lemma {:induction false} CellsKept(job: Job, fab: Fabric, cells: seq<Word>, pc: Pc)
    requires job.Valid(fab) && |cells| == fab.cellCount && Fits(job, pc)
    ensures !pc.Storing? && !pc.Injecting? ==> StepCells(job, fab, cells, pc) == cells
  {}

  lemma {:induction false} StoppedHolds(job: Job, fab: Fabric, cells: seq<Word>, drift: seq<Word>, pc: Pc, w: nat)
    requires job.Valid(fab) && Fits(job, pc) && Polls(pc) && job.Owns(w)
    requires |cells| == fab.cellCount && |drift| == |fab.wires| && Holds(job, fab, cells, drift, pc, w)
    ensures Holds(job, fab, cells, drift, Stopped(pc), w)
  {}

  lemma {:induction false} ImageHolds(job: Job, fab: Fabric, cells: seq<Word>, drift: seq<Word>, pc: Pc, pc': Pc,
      w: nat)
    requires job.Valid(fab) && Fits(job, pc) && Fits(job, pc') && job.Owns(w)
    requires |cells| == fab.cellCount && |drift| == |fab.wires| && Holds(job, fab, cells, drift, pc, w)
    requires Image(job, fab, pc', w) == Image(job, fab, pc, w)
    ensures Holds(job, fab, cells, drift, pc', w)
  {}

  // ----- the whole team

  lemma {:induction false} WorkTracks(jobs: seq<Job>, fab: Fabric, wd: World, i: nat, stop: bool)
    requires Team(jobs, fab) && Shaped(jobs, fab, wd) && i < |jobs| && Running(wd.workers[i].pc)
    requires Tracks(jobs, fab, wd)
    ensures Tracks(jobs, fab, Happen(jobs, fab, wd, Work(i, stop)))
  {
    hide Xor, Sense, Holds, Step, DriftAfter, SeenAfter, HoldsAll;
    var wd' := Happen(jobs, fab, wd, Work(i, stop));
    var wk := wd.workers[i];
    forall k | 0 <= k < |jobs|
      ensures HoldsAll(jobs[k], fab, wd'.cells, wd'.drift, wd'.workers[k].pc)
    {
      assert HoldsAll(jobs[k], fab, wd.cells, wd.drift, wd.workers[k].pc);
      if k == i {
        StepHolds(jobs[i], fab, wd.cells, wd.drift, wk, stop);
      } else {
        forall w: nat | jobs[k].Owns(w)
          ensures wd'.cells[fab.wires[w]] == wd.cells[fab.wires[w]] && wd'.drift[w] == wd.drift[w]
        {
          assert !jobs[i].Owns(w);
          StepFrame(jobs[i], fab, wd.cells, wk, stop, w);
          DriftFrame(jobs[i], fab, wd.drift, wk.pc, w);
        }
        HoldsElsewhere(jobs[k], fab, wd.cells, wd.drift, wd'.cells, wd'.drift, wd.workers[k].pc);
      }
    }
  }

  lemma {:induction false} DriftFrame(job: Job, fab: Fabric, drift: seq<Word>, pc: Pc, w: nat)
    requires job.Valid(fab) && Fits(job, pc) && |drift| == |fab.wires| && w < |drift| && !job.Owns(w)
    ensures DriftAfter(job, fab, drift, pc)[w] == drift[w]
  {}

  lemma {:induction false} HoldsElsewhere(job: Job, fab: Fabric, cells: seq<Word>, drift: seq<Word>,
      cells': seq<Word>, drift': seq<Word>, pc: Pc)
    requires job.Valid(fab) && Fits(job, pc)
    requires |cells| == |cells'| == fab.cellCount && |drift| == |drift'| == |fab.wires|
    requires HoldsAll(job, fab, cells, drift, pc)
    requires forall w: nat :: job.Owns(w) ==> cells'[fab.wires[w]] == cells[fab.wires[w]] && drift'[w] == drift[w]
    ensures HoldsAll(job, fab, cells', drift', pc)
  {
    hide Image, Xor;
    forall w: nat | job.Owns(w)
      ensures Holds(job, fab, cells', drift', pc, w)
    {
      assert Holds(job, fab, cells, drift, pc, w);
    }
  }

  lemma {:induction false} UpsetTracks(jobs: seq<Job>, fab: Fabric, wd: World, u: nat, mask: Word)
    requires Team(jobs, fab) && Shaped(jobs, fab, wd) && u < |fab.wires| && Tracks(jobs, fab, wd)
    ensures Tracks(jobs, fab, Happen(jobs, fab, wd, Upset(u, mask)))
  {
    hide Xor, Sense, Image;
    var wd' := Happen(jobs, fab, wd, Upset(u, mask));
    forall k, w: nat | 0 <= k < |jobs| && jobs[k].Owns(w)
      ensures Holds(jobs[k], fab, wd'.cells, wd'.drift, wd'.workers[k].pc, w)
    {
      assert HoldsAll(jobs[k], fab, wd.cells, wd.drift, wd.workers[k].pc);
      assert Holds(jobs[k], fab, wd.cells, wd.drift, wd.workers[k].pc, w);
      if w == u {
        var v := Image(jobs[k], fab, wd.workers[k].pc, w);
        if v.Some? {
          XorAssociative(v.value, wd.drift[w], mask);
        }
      }
    }
  }

  ghost predicate NoInjection(jobs: seq<Job>) {
    forall i :: 0 <= i < |jobs| ==> !jobs[i].cfg.inject
  }

  lemma {:induction false} DriftStaysZero(jobs: seq<Job>, fab: Fabric, cells: seq<Word>, evs: seq<Event>)
    requires Team(jobs, fab) && |cells| == fab.cellCount && AllPossible(jobs, fab, evs) && NoUpsets(evs)
    ensures NoDrift(Exec(jobs, fab, Begin(jobs, fab, cells), evs).drift)
  {
    hide Step, NoDrift, SeenAfter;
    if evs == [] {
      BeginsWithoutDrift(jobs, fab, cells);
    } else {
      var init, ev := evs[..|evs| - 1], evs[|evs| - 1];
      DriftStaysZero(jobs, fab, cells, init);
      var wd := Exec(jobs, fab, Begin(jobs, fab, cells), init);
      assert ev.Work? && Possible(jobs, fab, ev);
      if Running(wd.workers[ev.i].pc) {
        NoDriftStays(jobs[ev.i], fab, wd.drift, wd.workers[ev.i].pc);
      }
    }
  }

  lemma {:induction false} BeginsWithoutDrift(jobs: seq<Job>, fab: Fabric, cells: seq<Word>)
    requires Team(jobs, fab) && |cells| == fab.cellCount
    ensures NoDrift(Begin(jobs, fab, cells).drift)
  {}

  lemma {:induction false} NoDriftStays(job: Job, fab: Fabric, drift: seq<Word>, pc: Pc)
    requires job.Valid(fab) && Fits(job, pc) && |drift| == |fab.wires| && NoDrift(drift)
    ensures NoDrift(DriftAfter(job, fab, drift, pc))
  {}

  /** In every reachable state of every interleaving, the arena is what the workers made it, up to drift. */
  lemma {:induction false} ExecTracks(jobs: seq<Job>, fab: Fabric, cells: seq<Word>, evs: seq<Event>)
    requires Team(jobs, fab) && |cells| == fab.cellCount && AllPossible(jobs, fab, evs)
    ensures Tracks(jobs, fab, Exec(jobs, fab, Begin(jobs, fab, cells), evs))
  {
    hide Xor, Sense, Step, DriftAfter, SeenAfter, HoldsAll, NoDrift;
    var start := Begin(jobs, fab, cells);
    if evs == [] {
      forall i | 0 <= i < |jobs|
        ensures HoldsAll(jobs[i], fab, start.cells, start.drift, start.workers[i].pc)
      {
        FreshHolds(jobs[i], fab, cells, start.drift);
      }
    } else {
      var init, ev := evs[..|evs| - 1], evs[|evs| - 1];
      ExecTracks(jobs, fab, cells, init);
      var wd := Exec(jobs, fab, start, init);
      match ev
      case Work(i, stop) =>
        if Running(wd.workers[i].pc) {
          WorkTracks(jobs, fab, wd, i, stop);
        }
      case Upset(u, mask) => UpsetTracks(jobs, fab, wd, u, mask);
    }
  }

  lemma {:induction false} FreshHolds(job: Job, fab: Fabric, cells: seq<Word>, drift: seq<Word>)
    requires job.Valid(fab) && |cells| == fab.cellCount && |drift| == |fab.wires|
    ensures HoldsAll(job, fab, cells, drift, Fresh(job).pc)
  {}
}
