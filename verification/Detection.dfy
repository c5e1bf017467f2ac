/**
 What a pass reports. Without upsets, the log of every worker is a function of its job, the
 memory's stuck bits and its program counter alone: no interleaving changes it. From that log
 follow the clean run, the injected mismatch and the detection of stuck bits.
 */
module Detection {
  import opened Words
  import opened Reports
  import opened Memories
  import opened ChunkVerify
  import opened Machine
  import opened Tracking
  import opened Findings

  /** What word w reads as in phase p's verify half. */
  function ReadBack(job: Job, fab: Fabric, p: nat, w: nat): Word
    requires job.Valid(fab) && p < |job.phases| && job.Owns(w)
  {
    Sense(fab.stuckLow[w], fab.stuckHigh[w], Full(job, fab, p, w))
  }

  /** The record of word w in phase p, if it reads back wrong. */
  function WordLog(job: Job, fab: Fabric, p: nat, w: nat): seq<ErrorRecord>
    requires job.Valid(fab) && p < |job.phases| && job.Owns(w)
  {
    var expected, actual := job.patterns[p](w), ReadBack(job, fab, p, w);
    if actual == expected then [] else [Mismatch(job.cfg, job.phases[p], w, expected, actual)]
  }

  /** The errors of phase p in the first d words of the slice. */
  function PhaseLog(job: Job, fab: Fabric, p: nat, d: nat): seq<ErrorRecord>
    requires job.Valid(fab) && p < |job.phases| && d <= job.count
  {
    if d == 0 then [] else PhaseLog(job, fab, p, d - 1) + WordLog(job, fab, p, job.start + d - 1)
  }

  /** The errors of the first p phases. */
  function PhasesLog(job: Job, fab: Fabric, p: nat): seq<ErrorRecord>
    requires job.Valid(fab) && p <= |job.phases|
  {
    if p == 0 then [] else PhasesLog(job, fab, p - 1) + PhaseLog(job, fab, p - 1, job.count)
  }

  /** The whole log of a worker that has got as far as pc. */
  function Predicted(job: Job, fab: Fabric, pc: Pc): seq<ErrorRecord>
    requires job.Valid(fab) && Fits(job, pc)
  {
    match LastRunning(job, pc)
    case Verifying(p, done) => PhasesLog(job, fab, p) + PhaseLog(job, fab, p, done)
    case Scanning(p, done, _, _) => PhasesLog(job, fab, p) + PhaseLog(job, fab, p, done)
    case Recording(p, done, k) => PhasesLog(job, fab, p) + PhaseLog(job, fab, p, done + k)
    case Refolding(p, done, _) => PhasesLog(job, fab, p) + PhaseLog(job, fab, p, done + NextChunk(job.count, done))
    case Finished => PhasesLog(job, fab, |job.phases|)
    case AtPhase(p) => PhasesLog(job, fab, p)
    case Writing(p, _) => PhasesLog(job, fab, p)
    case Storing(p, _, _) => PhasesLog(job, fab, p)
    case Folding(p, _, _) => PhasesLog(job, fab, p)
    case Injecting(p) => PhasesLog(job, fab, p)
  }

  // ----- without upsets every read sees no drift

  ghost predicate NothingSeen(seen: map<Mark, Word>) {
    forall mark :: mark in seen ==> seen[mark] == 0
  }

  lemma {:induction false} NothingIsSeen(jobs: seq<Job>, fab: Fabric, cells: seq<Word>, evs: seq<Event>)
    requires Team(jobs, fab) && |cells| == fab.cellCount && AllPossible(jobs, fab, evs) && NoUpsets(evs)
    ensures NothingSeen(Exec(jobs, fab, Begin(jobs, fab, cells), evs).seen)
  {
    hide Step, DriftAfter, SeenAfter, NothingSeen, NoDrift;
    if evs == [] {
      assert NothingSeen(map[]) by { EmptySeen(); }
    } else {
      var init, ev := evs[..|evs| - 1], evs[|evs| - 1];
      NothingIsSeen(jobs, fab, cells, init);
      DriftStaysZero(jobs, fab, cells, init);
      var wd := Exec(jobs, fab, Begin(jobs, fab, cells), init);
      assert ev.Work? && Possible(jobs, fab, ev);
      if Running(wd.workers[ev.i].pc) {
        NothingMoreSeen(jobs[ev.i], wd.drift, wd.seen, wd.workers[ev.i].pc);
      }
    }
  }

  lemma EmptySeen()
    ensures NothingSeen(map[])
  {}

  lemma {:induction false} NothingMoreSeen(job: Job, drift: seq<Word>, seen: map<Mark, Word>, pc: Pc)
    requires Fits(job, pc) && job.start + job.count <= |drift| && NoDrift(drift) && NothingSeen(seen)
    ensures NothingSeen(SeenAfter(job, drift, seen, pc))
  {}

  lemma {:induction false} UndriftedWord(job: Job, fab: Fabric, p: nat, w: nat)
    requires job.Valid(fab) && p < |job.phases| && job.Owns(w)
    ensures WordError(job, fab, p, w, 0) == WordLog(job, fab, p, w)
  {
    hide Sense, Full;
    XorUnit(Full(job, fab, p, w));
  }

  lemma {:induction false} UndriftedErrors(job: Job, fab: Fabric, p: nat, a: nat, b: nat)
    requires job.Valid(fab) && p < |job.phases| && a <= b <= job.count
    ensures PhaseLog(job, fab, p, a) + ErrorsOf(job, fab, p, (_: nat) => 0, a, b) == PhaseLog(job, fab, p, b)
    decreases b
  {
    hide WordError, WordLog;
    if a == b {
      assert PhaseLog(job, fab, p, a) + [] == PhaseLog(job, fab, p, a);
    } else {
      UndriftedErrors(job, fab, p, a, b - 1);
      var w := job.start + b - 1;
      UndriftedWord(job, fab, p, w);
      var init := ErrorsOf(job, fab, p, (_: nat) => 0, a, b - 1);
      var last := WordLog(job, fab, p, w);
      assert PhaseLog(job, fab, p, a) + (init + last) == PhaseLog(job, fab, p, a) + init + last;
    }
  }

  lemma {:induction false} UnseenAt(seen: map<Mark, Word>, access: Access, p: nat, w: nat)
    requires NothingSeen(seen)
    ensures At(seen, access, p, w) == 0
  {}

  lemma {:induction false} UndriftedPhase(job: Job, fab: Fabric, seen: map<Mark, Word>, p: nat, done: nat)
    requires job.Valid(fab) && p < |job.phases| && done <= job.count && (done == job.count || done % CHUNK == 0)
    requires NothingSeen(seen)
    ensures PhaseFindings(job, fab, seen, p, done) == PhaseLog(job, fab, p, done)
  {
    hide At, ErrorsOf, PhaseFindings, NothingSeen, Walked;
    var zero := (_: nat) => 0;
    forall access, w: nat
      ensures At(seen, access, p, w) == 0
    {
      UnseenAt(seen, access, p, w);
    }
    assert Steady(job, fab, seen, p, zero);
    SteadyPhase(job, fab, seen, p, zero, done);
    UndriftedErrors(job, fab, p, 0, done);
    assert PhaseLog(job, fab, p, 0) == [];
    assert [] + ErrorsOf(job, fab, p, zero, 0, done) == ErrorsOf(job, fab, p, zero, 0, done);
  }

  lemma {:induction false} UndriftedPass(job: Job, fab: Fabric, seen: map<Mark, Word>, p: nat)
    requires job.Valid(fab) && p <= |job.phases| && NothingSeen(seen)
    ensures PassFindings(job, fab, seen, p) == PhasesLog(job, fab, p)
  {
    hide PhaseFindings, PhaseLog, NothingSeen;
    if p > 0 {
      UndriftedPass(job, fab, seen, p - 1);
      UndriftedPhase(job, fab, seen, p - 1, job.count);
    }
  }

  lemma {:induction false} UndriftedWalk(job: Job, fab: Fabric, seen: map<Mark, Word>, p: nat, a: nat, b: nat)
    requires job.Valid(fab) && p < |job.phases| && a <= b <= job.count && NothingSeen(seen)
    ensures PhaseLog(job, fab, p, a) + WalkFindings(job, fab, seen, p, a, b) == PhaseLog(job, fab, p, b)
  {
    hide At, ErrorsOf, PhaseLog, WalkFindings, NothingSeen;
    var zero := (_: nat) => 0;
    forall w: nat | job.start + a <= w < job.start + b
      ensures At(seen, RecordRead, p, w) == 0
    {
      UnseenAt(seen, RecordRead, p, w);
    }
    WalkIsErrors(job, fab, seen, p, zero, a, b);
    UndriftedErrors(job, fab, p, a, b);
  }

  lemma {:induction false} PredictedFromSeen(job: Job, fab: Fabric, seen: map<Mark, Word>, pc: Pc,
      log: seq<ErrorRecord>)
    requires job.Valid(fab) && Fits(job, pc) && NothingSeen(seen) && Explains(job, fab, seen, pc, log)
    ensures log == Predicted(job, fab, pc)
  {
    hide NothingSeen, PassFindings, PhaseFindings, WalkFindings, Walked, SuspectIn, PhaseLog, PhasesLog;
    var at := LastRunning(job, pc);
    UndriftedPass(job, fab, seen, if at.Finished? then |job.phases| else at.p);
    match at
    case Verifying(p, done) => UndriftedPhase(job, fab, seen, p, done);
    case Scanning(p, done, _, _) => UndriftedPhase(job, fab, seen, p, done);
    case Recording(p, done, k) =>
      UndriftedPhase(job, fab, seen, p, done);
      UndriftedWalk(job, fab, seen, p, done, done + k);
      assert PhasesLog(job, fab, p) + PhaseLog(job, fab, p, done) + WalkFindings(job, fab, seen, p, done, done + k)
          == PhasesLog(job, fab, p) + (PhaseLog(job, fab, p, done) + WalkFindings(job, fab, seen, p, done, done + k));
    case Refolding(p, done, _) =>
      AlignedEnd(job, done);
      UndriftedPhase(job, fab, seen, p, done + NextChunk(job.count, done));
    case _ =>
  }

  lemma {:induction false} AlignedEnd(job: Job, done: nat)
    requires ChunkAt(job, done)
    ensures var b := done + NextChunk(job.count, done); b == job.count || b % CHUNK == 0
  {}

  /** Without upsets every interleaving gives each worker exactly its predicted log. */
  lemma {:induction false} LogIsPredicted(jobs: seq<Job>, fab: Fabric, cells: seq<Word>, evs: seq<Event>, i: nat)
    requires Team(jobs, fab) && |cells| == fab.cellCount && AllPossible(jobs, fab, evs) && NoUpsets(evs)
    requires i < |jobs|
    ensures var wk := Exec(jobs, fab, Begin(jobs, fab, cells), evs).workers[i];
      wk.log == Predicted(jobs[i], fab, wk.pc)
  {
    hide Exec, Begin, Explains, Predicted, NothingSeen;
    LogIsExplained(jobs, fab, cells, evs, i);
    NothingIsSeen(jobs, fab, cells, evs);
    var wd := Exec(jobs, fab, Begin(jobs, fab, cells), evs);
    PredictedFromSeen(jobs[i], fab, wd.seen, wd.workers[i].pc, wd.workers[i].log);
  }

  // ----- fault-free memory

  lemma {:induction false} CleanPhase(job: Job, fab: Fabric, p: nat, d: nat)
    requires job.Valid(fab) && fab.NoStuckBits() && !job.cfg.inject && p < |job.phases| && d <= job.count
    ensures PhaseLog(job, fab, p, d) == []
  {
    hide WordLog;
    if d > 0 {
      CleanPhase(job, fab, p, d - 1);
      CleanWord(job, fab, p, job.start + d - 1);
    }
  }

  lemma {:induction false} CleanWord(job: Job, fab: Fabric, p: nat, w: nat)
    requires job.Valid(fab) && fab.NoStuckBits() && !job.cfg.inject && p < |job.phases| && job.Owns(w)
    ensures WordLog(job, fab, p, w) == []
  {
    hide Sense;
    SenseIntact(job.patterns[p](w));
  }

  lemma {:induction false} CleanPhases(job: Job, fab: Fabric, p: nat)
    requires job.Valid(fab) && fab.NoStuckBits() && !job.cfg.inject && p <= |job.phases|
    ensures PhasesLog(job, fab, p) == []
  {
    hide PhaseLog;
    if p > 0 {
      CleanPhases(job, fab, p - 1);
      CleanPhase(job, fab, p - 1, job.count);
    }
  }

  lemma {:induction false} CleanPrediction(job: Job, fab: Fabric, pc: Pc)
    requires job.Valid(fab) && fab.NoStuckBits() && !job.cfg.inject && Fits(job, pc)
    ensures Predicted(job, fab, pc) == []
  {
    hide PhaseLog, PhasesLog;
    var at := LastRunning(job, pc);
    CleanPhases(job, fab, if at.Finished? then |job.phases| else at.p);
    match at
    case Verifying(p, done) => CleanPhase(job, fab, p, done);
    case Scanning(p, done, _, _) => CleanPhase(job, fab, p, done);
    case Recording(p, done, k) => CleanPhase(job, fab, p, done + k);
    case Refolding(p, done, _) => CleanPhase(job, fab, p, done + NextChunk(job.count, done));
    case _ =>
  }

  /** On fault-free memory no worker ever records an error, at any point of any interleaving. */
  lemma {:induction false} NoFalseAlarms(jobs: seq<Job>, fab: Fabric, cells: seq<Word>, evs: seq<Event>, i: nat)
    requires Team(jobs, fab) && |cells| == fab.cellCount && AllPossible(jobs, fab, evs) && NoUpsets(evs)
    requires i < |jobs| && fab.NoStuckBits() && !jobs[i].cfg.inject
    ensures Exec(jobs, fab, Begin(jobs, fab, cells), evs).workers[i].log == []
  {
    LogIsPredicted(jobs, fab, cells, evs, i);
    CleanPrediction(jobs[i], fab, Exec(jobs, fab, Begin(jobs, fab, cells), evs).workers[i].pc);
  }

  ghost predicate AllFinished(wd: World) {
    forall i :: 0 <= i < |wd.workers| ==> wd.workers[i].pc == Finished
  }

  /** Every word of the arena belongs to some slice. */
  ghost predicate Covers(jobs: seq<Job>, fab: Fabric) {
    forall w: nat :: w < |fab.wires| ==> Owned(jobs, w)
  }

  ghost predicate Owned(jobs: seq<Job>, w: nat) {
    exists i :: 0 <= i < |jobs| && jobs[i].Owns(w)
  }

  /** All workers run the same phases, with the same last pattern, and inject nothing. */
  ghost predicate EndsWith(jobs: seq<Job>, last: nat -> Word) {
    forall i :: 0 <= i < |jobs| ==>
      && 0 < |jobs[i].patterns| && jobs[i].patterns[|jobs[i].patterns| - 1] == last && !jobs[i].cfg.inject
  }

  /** A pass whose workers all finished leaves the last phase's value in every word, whatever the split. */
  lemma {:induction false} FinalContents(jobs: seq<Job>, fab: Fabric, cells: seq<Word>, evs: seq<Event>,
      last: nat -> Word, w: nat)
    requires Team(jobs, fab) && |cells| == fab.cellCount && AllPossible(jobs, fab, evs) && NoUpsets(evs)
    requires Covers(jobs, fab) && EndsWith(jobs, last) && w < |fab.wires|
    requires AllFinished(Exec(jobs, fab, Begin(jobs, fab, cells), evs))
    ensures Exec(jobs, fab, Begin(jobs, fab, cells), evs).cells[fab.wires[w]] == last(w)
  {
    hide Xor, Exec;
    assert Owned(jobs, w);
    var wd := Exec(jobs, fab, Begin(jobs, fab, cells), evs);
    var i :| 0 <= i < |jobs| && jobs[i].Owns(w);
    ExecTracks(jobs, fab, cells, evs);
    DriftStaysZero(jobs, fab, cells, evs);
    assert HoldsAll(jobs[i], fab, wd.cells, wd.drift, wd.workers[i].pc);
    assert Holds(jobs[i], fab, wd.cells, wd.drift, wd.workers[i].pc, w);
    XorUnit(last(w));
  }

  // ----- the injected mismatch

  lemma InjectedDiffers(v: Word)
    ensures Xor(v, INJECTED) != v && Xor(v, Xor(v, INJECTED)) == INJECTED
  {
    XorCancel(v, INJECTED);
    XorUnit(v);
  }

  function InjectedError(job: Job, p: nat): ErrorRecord
    requires p < |job.phases| == |job.patterns|
  {
    var v := job.patterns[p](job.start);
    Mismatch(job.cfg, job.phases[p], job.start, v, Xor(v, INJECTED))
  }

  lemma {:induction false} InjectedPhase(job: Job, fab: Fabric, p: nat, d: nat)
    requires job.Valid(fab) && fab.NoStuckBits() && job.cfg.inject && p < |job.phases| && 0 < d <= job.count
    ensures PhaseLog(job, fab, p, d) == [InjectedError(job, p)]
  {
    hide Sense, Xor;
    var w := job.start + d - 1;
    SenseIntact(job.patterns[p](w));
    SenseIntact(Full(job, fab, p, w));
    InjectedDiffers(job.patterns[p](w));
    if d > 1 {
      InjectedPhase(job, fab, p, d - 1);
    } else {
      assert PhaseLog(job, fab, p, 0) == [];
    }
  }

  lemma {:induction false} InjectedPhases(job: Job, fab: Fabric, n: nat)
    requires job.Valid(fab) && fab.NoStuckBits() && job.cfg.inject && n <= |job.phases| && job.count > 0
    ensures PhasesLog(job, fab, n) == seq(n, p requires 0 <= p < n => InjectedError(job, p))
  {
    hide PhaseLog, InjectedError;
    if n > 0 {
      InjectedPhases(job, fab, n - 1);
      InjectedPhase(job, fab, n - 1, job.count);
    }
  }

  /** The debug flag costs a finished worker exactly one error per phase, at the head of its slice. */
  lemma {:induction false} InjectionIsReported(jobs: seq<Job>, fab: Fabric, cells: seq<Word>, evs: seq<Event>, i: nat)
    requires Team(jobs, fab) && |cells| == fab.cellCount && AllPossible(jobs, fab, evs) && NoUpsets(evs)
    requires i < |jobs| && fab.NoStuckBits() && jobs[i].cfg.inject && jobs[i].count > 0
    requires Exec(jobs, fab, Begin(jobs, fab, cells), evs).workers[i].pc == Finished
    ensures var job := jobs[i];
      var log := Exec(jobs, fab, Begin(jobs, fab, cells), evs).workers[i].log;
      var n := |job.phases|;
      && log == seq(n, p requires 0 <= p < n => InjectedError(job, p))
      && Digest(log) == Summary(Some(InjectedError(job, 0)), n, 8 * job.start, 8 * job.start, INJECTED)
  {
    hide Exec, PhasesLog, Digest, InjectedError;
    var job := jobs[i];
    LogIsPredicted(jobs, fab, cells, evs, i);
    InjectedPhases(job, fab, |job.phases|);
    InjectedDigest(job, |job.phases|);
  }

  lemma {:induction false} InjectedDigest(job: Job, n: nat)
    requires 0 < n <= |job.phases| == |job.patterns| <= 8
    ensures var log := seq(n, p requires 0 <= p < n => InjectedError(job, p));
      Digest(log) == Summary(Some(InjectedError(job, 0)), n, 8 * job.start, 8 * job.start, INJECTED)
  {
    hide Xor, Or;
    var log := seq(n, p requires 0 <= p < n => InjectedError(job, p));
    var init := seq(n - 1, p requires 0 <= p < n - 1 => InjectedError(job, p));
    assert log[..n - 1] == init;
    InjectedDiffers(job.patterns[n - 1](job.start));
    assert log[n - 1].Diff() == INJECTED;
    if n == 1 {
      assert AllDiffs(init) == 0;
      OrLaws(INJECTED, 0, 0);
      assert AllDiffs(log) == INJECTED;
    } else {
      InjectedDigest(job, n - 1);
      OrIdempotent(INJECTED);
    }
  }

  lemma OrIdempotent(a: Word)
    ensures Or(a, a) == a
  {}
}
