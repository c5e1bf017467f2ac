/**
 Byte counters: what `bytes_written`, `bytes_verified` and the shared progress counter hold at every
 point of every run, and when the progress bar reaches its end.
 */
module Progress {
  import opened Words
  import opened Memories
  import opened Machine

  /** Write halves completed by a worker at pc. */
  function WritesDone(job: Job, pc: Pc): nat
    requires Fits(job, pc)
  {
    match pc
    case Verifying(p, _) => p + 1
    case Scanning(p, _, _, _) => p + 1
    case Recording(p, _, _) => p + 1
    case Refolding(p, _, _) => p + 1
    case Finished => |job.phases|
    case Stopped(at) => WritesDone(job, at)
    case _ => pc.p
  }

  /** Verify halves completed by a worker at pc. */
  function VerifiesDone(job: Job, pc: Pc): nat
    requires Fits(job, pc)
  {
    match pc
    case Finished => |job.phases|
    case Stopped(at) => VerifiesDone(job, at)
    case _ => pc.p
  }

  /** Words of the completed chunks of the half that is under way. */
  function OpenWords(job: Job, pc: Pc): nat
    requires Fits(job, pc)
  {
    match pc
    case AtPhase(_) => 0
    case Injecting(_) => job.count
    case Finished => 0
    case Stopped(at) => OpenWords(job, at)
    case _ => pc.done
  }

  ghost predicate Accounted(job: Job, wk: Worker)
    requires Fits(job, wk.pc)
  {
    && wk.written == WritesDone(job, wk.pc) * (8 * job.count)
    && wk.verified == VerifiesDone(job, wk.pc) * (8 * job.count)
    && wk.progress == wk.written + wk.verified + 8 * OpenWords(job, wk.pc)
  }

  lemma OneMoreHalf(k: nat, bytes: nat)
    ensures (k + 1) * bytes == k * bytes + bytes
  {}

  /** Counters of a worker in phase p with so many words of an open half. */
  ghost predicate AccountedIn(job: Job, wk: Worker, writes: nat, verifies: nat, open: nat) {
    && wk.written == writes * (8 * job.count) && wk.verified == verifies * (8 * job.count)
    && wk.progress == wk.written + wk.verified + 8 * open
  }

  lemma {:induction false} EndWriteAccounts(job: Job, wk: Worker, p: nat, done: nat)
    requires p < |job.phases| && ChunkAt(job, done) && AccountedIn(job, wk, p, p, done)
    ensures Accounted(job, EndWrite(job, wk, p, done))
    ensures Accounted(job, EndStores(job, wk, p, done))
  {
    OneMoreHalf(p, 8 * job.count);
  }

  lemma {:induction false} EndVerifyAccounts(job: Job, wk: Worker, p: nat, done: nat)
    requires p < |job.phases| && ChunkAt(job, done) && AccountedIn(job, wk, p + 1, p, done)
    ensures Accounted(job, EndVerify(job, wk, p, done))
    ensures Accounted(job, EndErrors(job, wk, p, done))
  {
    OneMoreHalf(p, 8 * job.count);
  }

  lemma {:induction false} EnterAccounts(job: Job, wk: Worker)
    requires wk.pc.AtPhase? && Fits(job, wk.pc) && Accounted(job, wk)
    ensures Accounted(job, EnterPhase(job, wk))
  {
    OneMoreHalf(wk.pc.p, 8 * job.count);
  }

  lemma {:induction false} StepAccounts(job: Job, fab: Fabric, cells: seq<Word>, wk: Worker, stop: bool)
    requires job.Valid(fab) && |cells| == fab.cellCount && Running(wk.pc) && Fits(job, wk.pc) && Accounted(job, wk)
    ensures Accounted(job, Step(job, fab, cells, wk, stop).1)
  {
    hide Load, StepCells, Pressed, ErrorAt, EndWrite, EndStores, EndVerify, EndErrors, EnterPhase;
    match wk.pc
    case AtPhase(_) => EnterAccounts(job, wk);
    case Injecting(p) => OneMoreHalf(p, 8 * job.count);
    case Storing(p, done, _) => EndWriteAccounts(job, wk, p, done);
    case Folding(p, done, k) =>
      EndWriteAccounts(job, wk.(pressure := Pressed(job, fab, cells, wk.pressure, job.start + done + k)), p, done);
    case Scanning(p, done, _, _) => EndVerifyAccounts(job, wk, p, done);
    case Recording(p, done, k) =>
      EndVerifyAccounts(job, wk.(log := wk.log + ErrorAt(job, fab, cells, p, job.start + done + k)), p, done);
    case Refolding(p, done, k) =>
      EndVerifyAccounts(job, wk.(pressure := Pressed(job, fab, cells, wk.pressure, job.start + done + k)), p, done);
    case _ =>
  }

  /** In every reachable state the counters are exactly the halves completed plus the words of the open half. */
  lemma {:induction false} ExecAccounts(jobs: seq<Job>, fab: Fabric, cells: seq<Word>, evs: seq<Event>, i: nat)
    requires Team(jobs, fab) && |cells| == fab.cellCount && AllPossible(jobs, fab, evs) && i < |jobs|
    ensures Accounted(jobs[i], Exec(jobs, fab, Begin(jobs, fab, cells), evs).workers[i])
  {
    hide Step, DriftAfter, SeenAfter, Accounted, Xor;
    if evs == [] {
      assert Accounted(jobs[i], Fresh(jobs[i])) by { FreshAccounts(jobs[i]); }
    } else {
      var init, ev := evs[..|evs| - 1], evs[|evs| - 1];
      ExecAccounts(jobs, fab, cells, init, i);
      var wd := Exec(jobs, fab, Begin(jobs, fab, cells), init);
      if ev.Work? && ev.i == i && Running(wd.workers[i].pc) {
        StepAccounts(jobs[i], fab, wd.cells, wd.workers[i], ev.stop);
      }
    }
  }

  lemma {:induction false} FreshAccounts(job: Job)
    requires |job.phases| > 0
    ensures Accounted(job, Fresh(job))
  {}

  /** All the bytes a worker can ever account for: each phase writes and verifies its slice. */
  function WorkOf(job: Job): nat {
    16 * job.count * |job.phases|
  }

  lemma {:induction false} ProgressBound(job: Job, wk: Worker)
    requires Fits(job, wk.pc) && Accounted(job, wk)
    ensures wk.progress <= WorkOf(job)
    ensures wk.progress == WorkOf(job) <==> job.count == 0 || wk.pc == Finished
    decreases wk.pc
  {
    var n, bytes := |job.phases|, 8 * job.count;
    if wk.pc.Finished? {
      assert n * bytes + n * bytes == WorkOf(job);
    } else if wk.pc.Stopped? {
      ProgressBound(job, wk.(pc := wk.pc.at));
    } else {
      var p := wk.pc.p;
      HalvesBound(WritesDone(job, wk.pc), p, n, bytes);
      if wk.pc.Injecting? {
        OneMoreHalf(p, bytes);
        HalvesBound(p + 1, p, n, bytes);
      }
    }
  }

  lemma HalvesBound(a: nat, b: nat, n: nat, bytes: nat)
    requires a <= n && b < n
    ensures a * bytes + b * bytes + bytes <= 2 * bytes * n
  {
    assert a * bytes <= n * bytes;
    assert (b + 1) * bytes <= n * bytes;
  }

  function TotalProgress(workers: seq<Worker>): nat {
    if workers == [] then 0 else TotalProgress(workers[..|workers| - 1]) + workers[|workers| - 1].progress
  }

  function TotalWork(jobs: seq<Job>): nat {
    if jobs == [] then 0 else TotalWork(jobs[..|jobs| - 1]) + WorkOf(jobs[|jobs| - 1])
  }

  ghost predicate TeamAccounted(jobs: seq<Job>, workers: seq<Worker>) {
    |workers| == |jobs|
    && forall i :: 0 <= i < |jobs| ==> Fits(jobs[i], workers[i].pc) && Accounted(jobs[i], workers[i])
  }

  /** Every worker that had anything to do has finished. */
  ghost predicate NoneOutstanding(jobs: seq<Job>, workers: seq<Worker>)
    requires |workers| == |jobs|
  {
    forall i :: 0 <= i < |jobs| ==> jobs[i].count == 0 || workers[i].pc == Finished
  }

  lemma {:induction false} TotalBound(jobs: seq<Job>, workers: seq<Worker>)
    requires TeamAccounted(jobs, workers)
    ensures TotalProgress(workers) <= TotalWork(jobs)
    ensures TotalProgress(workers) == TotalWork(jobs) <==> NoneOutstanding(jobs, workers)
    decreases |jobs|
  {
    hide Accounted, WorkOf;
    if jobs != [] {
      var n := |jobs| - 1;
      TotalBound(jobs[..n], workers[..n]);
      ProgressBound(jobs[n], workers[n]);
      assert NoneOutstanding(jobs, workers) <==>
        NoneOutstanding(jobs[..n], workers[..n]) && (jobs[n].count == 0 || workers[n].pc == Finished);
    }
  }

  /** The shared progress never passes its goal, and meets it exactly when no non-empty slice is left unfinished. */
  lemma {:induction false} ProgressReachesGoal(jobs: seq<Job>, fab: Fabric, cells: seq<Word>, evs: seq<Event>)
    requires Team(jobs, fab) && |cells| == fab.cellCount && AllPossible(jobs, fab, evs)
    ensures var workers := Exec(jobs, fab, Begin(jobs, fab, cells), evs).workers;
      && |workers| == |jobs|
      && TotalProgress(workers) <= TotalWork(jobs)
      && (TotalProgress(workers) == TotalWork(jobs) <==> NoneOutstanding(jobs, workers))
  {
    hide Exec, Accounted, TotalProgress, TotalWork, NoneOutstanding;
    var workers := Exec(jobs, fab, Begin(jobs, fab, cells), evs).workers;
    forall i | 0 <= i < |jobs|
      ensures Accounted(jobs[i], workers[i])
    {
      ExecAccounts(jobs, fab, cells, evs, i);
    }
    TotalBound(jobs, workers);
  }
}
