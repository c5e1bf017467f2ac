/**
 The Extreme checksum. Every word is folded in once after it was written and once after it was
 verified, so in a finished pass the two folds cancel except where their reads differed.
 */
module Checksum {
  import opened Words
  import opened Patterns
  import opened Memories
  import opened Machine
  import opened Tracking
  import opened Findings
  import opened Detection

  /** What the fold of phase p's write half read from word w. */
  function Echo(job: Job, fab: Fabric, seen: map<Mark, Word>, p: nat, w: nat): Word
    requires job.Valid(fab) && p < |job.phases| && job.Owns(w)
  {
    Sense(fab.stuckLow[w], fab.stuckHigh[w], Xor(job.patterns[p](w), At(seen, FoldRead, p, w)))
  }

  /** What the fold of phase p's verify half read from word w. */
  function Heard(job: Job, fab: Fabric, seen: map<Mark, Word>, p: nat, w: nat): Word
    requires job.Valid(fab) && p < |job.phases| && job.Owns(w)
  {
    Reading(job, fab, p, w, At(seen, RefoldRead, p, w))
  }

  /** What the first d words add to the checksum in the write half. */
  function FoldSum(job: Job, fab: Fabric, seen: map<Mark, Word>, p: nat, d: nat): Word
    requires job.Valid(fab) && p < |job.phases| && d <= job.count
  {
    if d == 0 then 0 else Xor(FoldSum(job, fab, seen, p, d - 1), job.press(Echo(job, fab, seen, p, job.start + d - 1)))
  }

  /** What they add in the verify half. */
  function RefoldSum(job: Job, fab: Fabric, seen: map<Mark, Word>, p: nat, d: nat): Word
    requires job.Valid(fab) && p < |job.phases| && d <= job.count
  {
    if d == 0 then 0
    else Xor(RefoldSum(job, fab, seen, p, d - 1), job.press(Heard(job, fab, seen, p, job.start + d - 1)))
  }

  function PassSum(job: Job, fab: Fabric, seen: map<Mark, Word>, p: nat): Word
    requires job.Valid(fab) && p <= |job.phases|
  {
    if p == 0 then 0
    else Xor(PassSum(job, fab, seen, p - 1),
             Xor(FoldSum(job, fab, seen, p - 1, job.count), RefoldSum(job, fab, seen, p - 1, job.count)))
  }

  function Base(job: Job): Word {
    Xor(job.cfg.seed, FromNat(job.cfg.workerId))
  }

  /** Words folded in the write half of the present phase. */
  function FoldedWords(job: Job, pc: Pc): nat
    requires Fits(job, pc) && !pc.AtPhase? && !pc.Finished? && !pc.Stopped?
  {
    match pc
    case Writing(_, done) => done
    case Storing(_, done, _) => done
    case Folding(_, done, k) => done + k
    case _ => job.count
  }

  /** Words folded in the verify half of the present phase. */
  function RefoldedWords(job: Job, pc: Pc): nat
    requires Fits(job, pc) && !pc.AtPhase? && !pc.Finished? && !pc.Stopped?
  {
    match pc
    case Verifying(_, done) => done
    case Scanning(_, done, _, _) => done
    case Recording(_, done, _) => done
    case Refolding(_, done, k) => done + k
    case _ => 0
  }

  lemma {:induction false} FoldedFits(job: Job, pc: Pc)
    requires Fits(job, pc) && !pc.AtPhase? && !pc.Finished? && !pc.Stopped?
    ensures FoldedWords(job, pc) <= job.count && RefoldedWords(job, pc) <= job.count && pc.p < |job.phases|
  {}

  /** What the reads so far have added. */
  function Added(job: Job, fab: Fabric, seen: map<Mark, Word>, pc: Pc): Word
    requires job.Valid(fab) && Fits(job, pc)
  {
    var at := LastRunning(job, pc);
    if at.Finished? then PassSum(job, fab, seen, |job.phases|)
    else if at.AtPhase? then PassSum(job, fab, seen, at.p)
    else
      FoldedFits(job, at);
      Partial(job, fab, seen, at.p, FoldedWords(job, at), RefoldedWords(job, at))
  }

  function Partial(job: Job, fab: Fabric, seen: map<Mark, Word>, p: nat, d: nat, e: nat): Word
    requires job.Valid(fab) && p < |job.phases| && d <= job.count && e <= job.count
  {
    Xor(PassSum(job, fab, seen, p), Xor(FoldSum(job, fab, seen, p, d), RefoldSum(job, fab, seen, p, e)))
  }

  /** The checksum is the base and what the reads so far have added. */
  ghost predicate Balanced(job: Job, fab: Fabric, seen: map<Mark, Word>, wk: Worker)
    requires job.Valid(fab) && Fits(job, wk.pc)
  {
    wk.pressure == Xor(Base(job), Added(job, fab, seen, wk.pc))
  }

  // ----- later reads change no earlier sum

  lemma {:induction false} FoldFrame(job: Job, fab: Fabric, seen: map<Mark, Word>, seen': map<Mark, Word>, p: nat,
      d: nat)
    requires job.Valid(fab) && p < |job.phases| && d <= job.count
    requires forall w: nat :: job.start <= w < job.start + d ==> At(seen, FoldRead, p, w) == At(seen', FoldRead, p, w)
    ensures FoldSum(job, fab, seen', p, d) == FoldSum(job, fab, seen, p, d)
  {
    hide At, Sense, Xor;
    if d > 0 {
      FoldFrame(job, fab, seen, seen', p, d - 1);
    }
  }

  lemma {:induction false} RefoldFrame(job: Job, fab: Fabric, seen: map<Mark, Word>, seen': map<Mark, Word>, p: nat,
      d: nat)
    requires job.Valid(fab) && p < |job.phases| && d <= job.count
    requires forall w: nat :: job.start <= w < job.start + d ==>
      At(seen, RefoldRead, p, w) == At(seen', RefoldRead, p, w)
    ensures RefoldSum(job, fab, seen', p, d) == RefoldSum(job, fab, seen, p, d)
  {
    hide At, Reading, Xor;
    if d > 0 {
      RefoldFrame(job, fab, seen, seen', p, d - 1);
    }
  }

  predicate SameFolds(seen: map<Mark, Word>, seen': map<Mark, Word>, p: nat, w: nat) {
    At(seen, FoldRead, p, w) == At(seen', FoldRead, p, w) && At(seen, RefoldRead, p, w) == At(seen', RefoldRead, p, w)
  }

  lemma {:induction false} FoldsAgree(job: Job, seen: map<Mark, Word>, seen': map<Mark, Word>, p: nat, d: nat)
    requires d <= job.count && forall w: nat :: job.start <= w < job.start + d ==> SameFolds(seen, seen', p, w)
    ensures forall w: nat :: job.start <= w < job.start + d ==>
      At(seen, FoldRead, p, w) == At(seen', FoldRead, p, w) && At(seen, RefoldRead, p, w) == At(seen', RefoldRead, p, w)
  {
    hide At;
    forall w: nat | job.start <= w < job.start + d
      ensures At(seen, FoldRead, p, w) == At(seen', FoldRead, p, w)
      ensures At(seen, RefoldRead, p, w) == At(seen', RefoldRead, p, w)
    {
      assert SameFolds(seen, seen', p, w);
    }
  }

  lemma {:induction false} SumFrame(job: Job, fab: Fabric, seen: map<Mark, Word>, seen': map<Mark, Word>, p: nat)
    requires job.Valid(fab) && p <= |job.phases|
    requires forall q: nat, w: nat :: q < p && job.Owns(w) ==> SameFolds(seen, seen', q, w)
    ensures PassSum(job, fab, seen', p) == PassSum(job, fab, seen, p)
  {
    hide FoldSum, RefoldSum, Xor, At;
    if p > 0 {
      SumFrame(job, fab, seen, seen', p - 1);
      FoldsAgree(job, seen, seen', p - 1, job.count);
      FoldFrame(job, fab, seen, seen', p - 1, job.count);
      RefoldFrame(job, fab, seen, seen', p - 1, job.count);
    }
  }

  lemma {:induction false} AddedFrame(job: Job, fab: Fabric, seen: map<Mark, Word>, seen': map<Mark, Word>, pc: Pc)
    requires job.Valid(fab) && Fits(job, pc)
    requires forall q: nat, w: nat :: job.Owns(w) ==> SameFolds(seen, seen', q, w)
    ensures Added(job, fab, seen', pc) == Added(job, fab, seen, pc)
  {
    hide FoldSum, RefoldSum, PassSum, Xor, At;
    var at := LastRunning(job, pc);
    SumFrame(job, fab, seen, seen', if at.Finished? then |job.phases| else at.p);
    if !at.Finished? && !at.AtPhase? {
      FoldedFits(job, at);
      FoldsAgree(job, seen, seen', at.p, job.count);
      FoldFrame(job, fab, seen, seen', at.p, FoldedWords(job, at));
      RefoldFrame(job, fab, seen, seen', at.p, RefoldedWords(job, at));
    }
  }

  lemma {:induction false} OtherFold(seen: map<Mark, Word>, mark: Mark, d: Word, p: nat, w: nat)
    requires mark.p != p || mark.w != w || mark.access.ScanRead? || mark.access.RecordRead?
    ensures SameFolds(seen, seen[mark := d], p, w)
  {}

  lemma {:induction false} FoldsElsewhere(job: Job, drift: seq<Word>, seen: map<Mark, Word>, pc: Pc, q: nat, w: nat)
    requires Fits(job, pc) && job.start + job.count <= |drift|
    requires !job.Owns(w) || (!pc.Folding? && !pc.Refolding?)
    ensures SameFolds(seen, SeenAfter(job, drift, seen, pc), q, w)
  {
    var mark := MarkOf(job, pc);
    if mark.Some? {
      OtherFold(seen, mark.value, drift[mark.value.w], q, w);
    }
  }

  // ----- the steps

  lemma {:induction false} FoldReads(job: Job, fab: Fabric, cells: seq<Word>, drift: seq<Word>, pc: Pc, w: nat)
    requires job.Valid(fab) && Fits(job, pc) && |cells| == fab.cellCount && |drift| == |fab.wires|
    requires pc.Folding? && w == WordAt(job, pc) && HoldsAll(job, fab, cells, drift, pc)
    ensures Load(fab, cells, w) == Sense(fab.stuckLow[w], fab.stuckHigh[w], Xor(job.patterns[pc.p](w), drift[w]))
  {
    hide Sense, Xor, Full;
    assert Holds(job, fab, cells, drift, pc, w);
  }

  /** (b ^ (s ^ (f ^ r))) ^ x, folded into f or into r. */
  lemma {:induction false} AddsTo(b: Word, s: Word, f: Word, r: Word, x: Word)
    ensures Xor(Xor(b, Xor(s, Xor(f, r))), x) == Xor(b, Xor(s, Xor(f, Xor(r, x))))
    ensures Xor(Xor(b, Xor(s, Xor(f, r))), x) == Xor(b, Xor(s, Xor(Xor(f, x), r)))
  {
    hide Xor;
    XorAssociative(b, Xor(s, Xor(f, r)), x);
    XorAssociative(s, Xor(f, r), x);
    XorAssociative(f, r, x);
    XorAssociative(f, x, r);
    XorCommutative(r, x);
  }

  lemma {:induction false} NothingAdded(job: Job, fab: Fabric, seen: map<Mark, Word>, p: nat)
    requires job.Valid(fab) && p < |job.phases|
    ensures Partial(job, fab, seen, p, 0, 0) == PassSum(job, fab, seen, p)
    ensures Partial(job, fab, seen, p, job.count, job.count) == PassSum(job, fab, seen, p + 1)
  {
    hide Xor;
    XorUnit(0);
    XorUnit(PassSum(job, fab, seen, p));
  }

  lemma {:induction false} EndWriteAdds(job: Job, fab: Fabric, seen: map<Mark, Word>, wk: Worker, p: nat, done: nat)
    requires job.Valid(fab) && p < |job.phases| && ChunkAt(job, done)
    ensures Added(job, fab, seen, EndWrite(job, wk, p, done).pc)
         == Partial(job, fab, seen, p, done + NextChunk(job.count, done), 0)
    ensures EndWrite(job, wk, p, done).pressure == wk.pressure
  {
    hide Partial, PassSum;
  }

  lemma {:induction false} EndVerifyAdds(job: Job, fab: Fabric, seen: map<Mark, Word>, wk: Worker, p: nat, done: nat)
    requires job.Valid(fab) && p < |job.phases| && ChunkAt(job, done)
    ensures Added(job, fab, seen, EndVerify(job, wk, p, done).pc)
         == Partial(job, fab, seen, p, job.count, done + NextChunk(job.count, done))
    ensures EndVerify(job, wk, p, done).pressure == wk.pressure
  {
    hide Partial, PassSum;
    NothingAdded(job, fab, seen, p);
  }

  /** One more word folded in the write half. */
  lemma {:induction false} FoldAdds(job: Job, fab: Fabric, seen: map<Mark, Word>, p: nat, d: nat, x: Word, base: Word)
    requires job.Valid(fab) && p < |job.phases| && d < job.count
    ensures var w, seen' := job.start + d, seen[Mark(FoldRead, p, job.start + d) := x];
      Xor(Xor(base, Partial(job, fab, seen, p, d, 0)), job.press(Echo(job, fab, seen', p, w)))
        == Xor(base, Partial(job, fab, seen', p, d + 1, 0))
  {
    hide Xor, At, PassSum, RefoldSum, FoldSum, Echo;
    var w := job.start + d;
    var mark := Mark(FoldRead, p, w);
    var seen' := seen[mark := x];
    forall q: nat, v: nat | job.Owns(v) && (q < p || v < w)
      ensures SameFolds(seen, seen', q, v)
    {
      OtherFold(seen, mark, x, q, v);
    }
    SumFrame(job, fab, seen, seen', p);
    FoldsAgree(job, seen, seen', p, d);
    FoldFrame(job, fab, seen, seen', p, d);
    FoldOneMore(job, fab, seen', p, d);
    AddsTo(base, PassSum(job, fab, seen, p), FoldSum(job, fab, seen, p, d), 0, job.press(Echo(job, fab, seen', p, w)));
    NoRefolds(job, fab, seen, p);
    NoRefolds(job, fab, seen', p);
  }

  lemma {:induction false} FoldBalance(job: Job, fab: Fabric, cells: seq<Word>, drift: seq<Word>, seen: map<Mark, Word>,
      wk: Worker)
    requires job.Valid(fab) && |cells| == fab.cellCount && |drift| == |fab.wires|
    requires wk.pc.Folding? && Fits(job, wk.pc) && HoldsAll(job, fab, cells, drift, wk.pc)
    requires Balanced(job, fab, seen, wk)
    ensures Balanced(job, fab, SeenAfter(job, drift, seen, wk.pc), WriteStep(job, fab, cells, wk))
  {
    hide Xor, Sense, Load, At, Partial, PassSum, Base, EndWrite, HoldsAll;
    var p, d, w := wk.pc.p, wk.pc.done + wk.pc.k, WordAt(job, wk.pc);
    var mark := Mark(FoldRead, p, w);
    var seen' := seen[mark := drift[w]];
    ThisMark(seen, mark, drift[w]);
    FoldReads(job, fab, cells, drift, wk.pc, w);
    FoldAdds(job, fab, seen, p, d, drift[w], Base(job));
    EndWriteAdds(job, fab, seen', wk.(pressure := Pressed(job, fab, cells, wk.pressure, w)), p, wk.pc.done);
  }

  lemma {:induction false} FoldOneMore(job: Job, fab: Fabric, seen: map<Mark, Word>, p: nat, d: nat)
    requires job.Valid(fab) && p < |job.phases| && d < job.count
    ensures FoldSum(job, fab, seen, p, d + 1)
      == Xor(FoldSum(job, fab, seen, p, d), job.press(Echo(job, fab, seen, p, job.start + d)))
    ensures RefoldSum(job, fab, seen, p, d + 1)
         == Xor(RefoldSum(job, fab, seen, p, d), job.press(Heard(job, fab, seen, p, job.start + d)))
  {
    hide Xor, Echo, Heard;
  }

  lemma {:induction false} NoRefolds(job: Job, fab: Fabric, seen: map<Mark, Word>, p: nat)
    requires job.Valid(fab) && p < |job.phases|
    ensures RefoldSum(job, fab, seen, p, 0) == 0 && FoldSum(job, fab, seen, p, 0) == 0
  {}

  /** One more word folded in the verify half. */
  lemma {:induction false} RefoldAdds(job: Job, fab: Fabric, seen: map<Mark, Word>, p: nat, d: nat, x: Word, base: Word)
    requires job.Valid(fab) && p < |job.phases| && d < job.count
    ensures var w, seen' := job.start + d, seen[Mark(RefoldRead, p, job.start + d) := x];
      Xor(Xor(base, Partial(job, fab, seen, p, job.count, d)), job.press(Heard(job, fab, seen', p, w)))
        == Xor(base, Partial(job, fab, seen', p, job.count, d + 1))
  {
    hide Xor, At, PassSum, RefoldSum, FoldSum, Heard;
    var w := job.start + d;
    var mark := Mark(RefoldRead, p, w);
    var seen' := seen[mark := x];
    forall q: nat, v: nat | job.Owns(v) && (q < p || v < w)
      ensures SameFolds(seen, seen', q, v)
    {
      OtherFold(seen, mark, x, q, v);
    }
    SumFrame(job, fab, seen, seen', p);
    FoldsAgree(job, seen, seen', p, d);
    RefoldFrame(job, fab, seen, seen', p, d);
    forall v: nat
      ensures At(seen, FoldRead, p, v) == At(seen', FoldRead, p, v)
    {
      OtherAccess(seen, mark, x, FoldRead, p, v);
    }
    FoldFrame(job, fab, seen, seen', p, job.count);
    FoldOneMore(job, fab, seen', p, d);
    AddsTo(base, PassSum(job, fab, seen, p), FoldSum(job, fab, seen, p, job.count), RefoldSum(job, fab, seen, p, d),
           job.press(Heard(job, fab, seen', p, w)));
  }

  lemma {:induction false} RefoldBalance(job: Job, fab: Fabric, cells: seq<Word>, drift: seq<Word>, seen: map<Mark,
      Word>,
      wk: Worker)
    requires job.Valid(fab) && |cells| == fab.cellCount && |drift| == |fab.wires|
    requires wk.pc.Refolding? && Fits(job, wk.pc) && HoldsAll(job, fab, cells, drift, wk.pc)
    requires Balanced(job, fab, seen, wk)
    ensures Balanced(job, fab, SeenAfter(job, drift, seen, wk.pc), VerifyStep(job, fab, cells, wk))
  {
    hide Xor, Reading, Load, At, Partial, PassSum, Base, EndVerify, HoldsAll;
    var p, d, w := wk.pc.p, wk.pc.done + wk.pc.k, WordAt(job, wk.pc);
    var mark := Mark(RefoldRead, p, w);
    var seen' := seen[mark := drift[w]];
    ThisMark(seen, mark, drift[w]);
    ReadsAs(job, fab, cells, drift, wk.pc, w);
    RefoldAdds(job, fab, seen, p, d, drift[w], Base(job));
    EndVerifyAdds(job, fab, seen', wk.(pressure := Pressed(job, fab, cells, wk.pressure, w)), p, wk.pc.done);
  }

  lemma {:induction false} OtherAccess(seen: map<Mark, Word>, mark: Mark, d: Word, access: Access, p: nat, w: nat)
    requires mark.access != access
    ensures At(seen[mark := d], access, p, w) == At(seen, access, p, w)
  {}

  /** Steps that fold nothing: those of the write half, */
  lemma {:induction false} UnfoldedWrite(job: Job, fab: Fabric, cells: seq<Word>, seen: map<Mark, Word>, wk: Worker)
    requires job.Valid(fab) && |cells| == fab.cellCount && job.cfg.mode.Extreme? && Fits(job, wk.pc)
    requires wk.pc.AtPhase? || wk.pc.Writing? || wk.pc.Storing? || wk.pc.Injecting?
    requires Balanced(job, fab, seen, wk)
    ensures Balanced(job, fab, seen, StepWorker(job, fab, cells, wk))
  {
    hide Xor, Base, Partial, PassSum, VerifyStep, EndWrite;
    if wk.pc.AtPhase? {
      NothingAdded(job, fab, seen, wk.pc.p);
      if job.count == 0 {
        EmptySlice(job, fab, seen, wk.pc.p);
      }
    }
  }

  /** and those of the verify half. */
  lemma {:induction false} UnfoldedVerify(job: Job, fab: Fabric, cells: seq<Word>, seen: map<Mark, Word>, wk: Worker)
    requires job.Valid(fab) && |cells| == fab.cellCount && job.cfg.mode.Extreme? && Fits(job, wk.pc)
    requires wk.pc.Verifying? || wk.pc.Scanning? || wk.pc.Recording?
    requires Balanced(job, fab, seen, wk)
    ensures Balanced(job, fab, seen, StepWorker(job, fab, cells, wk))
  {
    hide Xor, Base, Partial, PassSum, Load, ErrorAt, WriteStep, EndVerify;
  }

  lemma {:induction false} EmptySlice(job: Job, fab: Fabric, seen: map<Mark, Word>, p: nat)
    requires job.Valid(fab) && p < |job.phases| && job.count == 0
    ensures PassSum(job, fab, seen, p + 1) == PassSum(job, fab, seen, p)
    ensures Added(job, fab, seen, AfterPhase(job, p)) == PassSum(job, fab, seen, p)
  {
    hide Xor;
    XorUnit(0);
    XorUnit(PassSum(job, fab, seen, p));
  }

  lemma {:induction false} StepBalance(job: Job, fab: Fabric, cells: seq<Word>, drift: seq<Word>, seen: map<Mark, Word>,
      wk: Worker, stop: bool)
    requires job.Valid(fab) && |cells| == fab.cellCount && |drift| == |fab.wires| && job.cfg.mode.Extreme?
    requires Running(wk.pc) && Fits(job, wk.pc) && HoldsAll(job, fab, cells, drift, wk.pc)
    requires Balanced(job, fab, seen, wk)
    ensures Balanced(job, fab, SeenAfter(job, drift, seen, wk.pc), Step(job, fab, cells, wk, stop).1)
  {
    hide Xor, HoldsAll, SameFolds, WriteStep, VerifyStep, StepCells, SeenAfter, Added, Base;
    if wk.pc.Folding? {
      FoldBalance(job, fab, cells, drift, seen, wk);
    } else if wk.pc.Refolding? {
      RefoldBalance(job, fab, cells, drift, seen, wk);
    } else {
      var seen' := SeenAfter(job, drift, seen, wk.pc);
      forall q: nat, w: nat | job.Owns(w)
        ensures SameFolds(seen, seen', q, w)
      {
        FoldsElsewhere(job, drift, seen, wk.pc, q, w);
      }
      AddedFrame(job, fab, seen, seen', wk.pc);
      if stop && Polls(wk.pc) {
        StoppedAdds(job, fab, seen', wk.pc);
      } else {
        if wk.pc.Verifying? || wk.pc.Scanning? || wk.pc.Recording? {
          UnfoldedVerify(job, fab, cells, seen', wk);
        } else {
          UnfoldedWrite(job, fab, cells, seen', wk);
        }
      }
    }
  }

  lemma {:induction false} StoppedAdds(job: Job, fab: Fabric, seen: map<Mark, Word>, pc: Pc)
    requires job.Valid(fab) && Fits(job, pc) && Polls(pc)
    ensures Added(job, fab, seen, Stopped(pc)) == Added(job, fab, seen, pc)
  {}

  lemma {:induction false} FreshBalance(job: Job, fab: Fabric)
    requires job.Valid(fab)
    ensures Balanced(job, fab, map[], Fresh(job))
  {
    hide Xor;
    XorUnit(Base(job));
  }

  /** The balance holds in every reachable state, for any upsets at any moments and any stuck bits. */
  lemma {:induction false} ExecBalance(jobs: seq<Job>, fab: Fabric, cells: seq<Word>, evs: seq<Event>, i: nat)
    requires Team(jobs, fab) && |cells| == fab.cellCount && AllPossible(jobs, fab, evs)
    requires i < |jobs| && jobs[i].cfg.mode.Extreme?
    ensures var wd := Exec(jobs, fab, Begin(jobs, fab, cells), evs); Balanced(jobs[i], fab, wd.seen, wd.workers[i])
  {
    hide Step, DriftAfter, SeenAfter, HoldsAll, Added, SameFolds, Xor, Base;
    if evs == [] {
      FreshBalance(jobs[i], fab);
    } else {
      var init, ev := evs[..|evs| - 1], evs[|evs| - 1];
      ExecBalance(jobs, fab, cells, init, i);
      var wd := Exec(jobs, fab, Begin(jobs, fab, cells), init);
      if ev.Work? && Running(wd.workers[ev.i].pc) {
        ExecTracks(jobs, fab, cells, init);
        var pc := wd.workers[ev.i].pc;
        if ev.i == i {
          StepBalance(jobs[i], fab, wd.cells, wd.drift, wd.seen, wd.workers[i], ev.stop);
        } else {
          var seen' := SeenAfter(jobs[ev.i], wd.drift, wd.seen, pc);
          forall q: nat, w: nat | jobs[i].Owns(w)
            ensures SameFolds(wd.seen, seen', q, w)
          {
            FoldsElsewhere(jobs[ev.i], wd.drift, wd.seen, pc, q, w);
          }
          AddedFrame(jobs[i], fab, wd.seen, seen', wd.workers[i].pc);
        }
      }
    }
  }

  // ----- what survives in a finished pass

  /** The two folds of phase p read word w differently. */
  predicate Moved(job: Job, fab: Fabric, seen: map<Mark, Word>, p: nat, w: nat)
    requires job.Valid(fab) && p < |job.phases| && job.Owns(w)
  {
    Echo(job, fab, seen, p, w) != Heard(job, fab, seen, p, w)
  }

  function MoveAt(job: Job, fab: Fabric, seen: map<Mark, Word>, p: nat, w: nat): Word
    requires job.Valid(fab) && p < |job.phases| && job.Owns(w)
  {
    Xor(job.press(Echo(job, fab, seen, p, w)), job.press(Heard(job, fab, seen, p, w)))
  }

  function MoveSum(job: Job, fab: Fabric, seen: map<Mark, Word>, p: nat, d: nat): Word
    requires job.Valid(fab) && p < |job.phases| && d <= job.count
  {
    if d == 0 then 0 else Xor(MoveSum(job, fab, seen, p, d - 1), MoveAt(job, fab, seen, p, job.start + d - 1))
  }

  lemma {:induction false} FoldsPair(job: Job, fab: Fabric, seen: map<Mark, Word>, p: nat, d: nat)
    requires job.Valid(fab) && p < |job.phases| && d <= job.count
    ensures Xor(FoldSum(job, fab, seen, p, d), RefoldSum(job, fab, seen, p, d)) == MoveSum(job, fab, seen, p, d)
  {
    hide Xor, Echo, Heard;
    if d == 0 {
      XorUnit(0);
    } else {
      var w := job.start + d - 1;
      FoldsPair(job, fab, seen, p, d - 1);
      XorSwap(FoldSum(job, fab, seen, p, d - 1), job.press(Echo(job, fab, seen, p, w)),
              RefoldSum(job, fab, seen, p, d - 1), job.press(Heard(job, fab, seen, p, w)));
    }
  }

  /** One difference x at word w0, if that is below d, and none elsewhere. */
  lemma {:induction false} OneMoves(job: Job, fab: Fabric, seen: map<Mark, Word>, p: nat, d: nat, w0: nat, x: Word)
    requires job.Valid(fab) && p < |job.phases| && d <= job.count
    requires forall w: nat :: job.start <= w < job.start + d ==>
      MoveAt(job, fab, seen, p, w) == if w == w0 then x else 0
    ensures MoveSum(job, fab, seen, p, d) == if job.start <= w0 < job.start + d then x else 0
  {
    hide Xor, MoveAt;
    if d > 0 {
      OneMoves(job, fab, seen, p, d - 1, w0, x);
      XorUnit(MoveSum(job, fab, seen, p, d - 1));
      XorCommutative(0, x);
      XorUnit(x);
    }
  }

  lemma {:induction false} OnePassMoves(job: Job, fab: Fabric, seen: map<Mark, Word>, n: nat, p0: nat, w0: nat, x: Word)
    requires job.Valid(fab) && n <= |job.phases| && job.Owns(w0)
    requires forall p: nat, w: nat :: p < n && job.Owns(w) ==>
      MoveAt(job, fab, seen, p, w) == if p == p0 && w == w0 then x else 0
    ensures PassSum(job, fab, seen, n) == if p0 < n then x else 0
  {
    hide Xor, MoveAt, FoldSum, RefoldSum, MoveSum;
    if n > 0 {
      var p := n - 1;
      OnePassMoves(job, fab, seen, p, p0, w0, x);
      FoldsPair(job, fab, seen, p, job.count);
      OneMoves(job, fab, seen, p, job.count, w0, if p == p0 then x else 0);
      XorUnit(PassSum(job, fab, seen, p));
      XorCommutative(0, x);
      XorUnit(x);
    }
  }

  lemma {:induction false} NothingMoves(job: Job, fab: Fabric, seen: map<Mark, Word>, n: nat)
    requires job.Valid(fab) && n <= |job.phases|
    requires forall p: nat, w: nat :: p < n && job.Owns(w) ==> MoveAt(job, fab, seen, p, w) == 0
    ensures PassSum(job, fab, seen, n) == 0
  {
    hide Xor, MoveAt, FoldSum, RefoldSum, MoveSum;
    if n > 0 {
      NothingMoves(job, fab, seen, n - 1);
      FoldsPair(job, fab, seen, n - 1, job.count);
      OneMoves(job, fab, seen, n - 1, job.count, job.start, 0);
      XorUnit(0);
    }
  }

  lemma ShiftedBase(base: Word, x: Word)
    ensures Xor(base, x) == base <==> x == 0
  {}

  lemma {:induction false} MovesShow(job: Job, fab: Fabric, seen: map<Mark, Word>, p: nat, w: nat)
    requires job.Valid(fab) && p < |job.phases| && job.Owns(w) && job.press == Pressure
    ensures MoveAt(job, fab, seen, p, w) == 0 <==> !Moved(job, fab, seen, p, w)
  {
    hide Xor, Pressure, Echo, Heard;
    var x, y := Echo(job, fab, seen, p, w), Heard(job, fab, seen, p, w);
    PressureBijective(x, y);
    DifferentWords(Pressure(x), Pressure(y));
  }

  lemma DifferentWords(a: Word, b: Word)
    ensures Xor(a, b) == 0 <==> a == b
  {}

  /**
   The checksum of a finished Extreme pass under any upsets and stuck bits: seed xor worker id, plus what
   the fold reads added. It is that base if the two folds agree on every word, and never if they differ
   on exactly one word in one phase.
   */
  lemma {:induction false} ChecksumOfFinishedPass(jobs: seq<Job>, fab: Fabric, cells: seq<Word>, evs: seq<Event>,
      i: nat)
    requires Team(jobs, fab) && |cells| == fab.cellCount && AllPossible(jobs, fab, evs)
    requires i < |jobs| && jobs[i].cfg.mode.Extreme? && jobs[i].press == Pressure
    requires Exec(jobs, fab, Begin(jobs, fab, cells), evs).workers[i].pc == Finished
    ensures var wd := Exec(jobs, fab, Begin(jobs, fab, cells), evs);
      var job := jobs[i];
      && wd.workers[i].pressure == Xor(Base(job), PassSum(job, fab, wd.seen, |job.phases|))
      && (AllAgree(job, fab, wd.seen) ==> wd.workers[i].pressure == Base(job))
      && ((exists p: nat, w: nat :: OnlyMove(job, fab, wd.seen, p, w)) ==> wd.workers[i].pressure != Base(job))
  {
    hide Exec, Begin, Xor, Moved, MoveAt, PassSum, Base;
    var wd := Exec(jobs, fab, Begin(jobs, fab, cells), evs);
    var job := jobs[i];
    ExecBalance(jobs, fab, cells, evs, i);
    ShiftedBase(Base(job), PassSum(job, fab, wd.seen, |job.phases|));
    forall p: nat, w: nat | p < |job.phases| && job.Owns(w)
      ensures MoveAt(job, fab, wd.seen, p, w) == 0 <==> !Moved(job, fab, wd.seen, p, w)
    {
      MovesShow(job, fab, wd.seen, p, w);
    }
    if AllAgree(job, fab, wd.seen) {
      NothingMoves(job, fab, wd.seen, |job.phases|);
    }
    if p: nat, w: nat :| OnlyMove(job, fab, wd.seen, p, w) {
      OnePassMoves(job, fab, wd.seen, |job.phases|, p, w, MoveAt(job, fab, wd.seen, p, w));
    }
  }

  /** No word of the slice was folded differently in the two halves of a phase. */
  ghost predicate AllAgree(job: Job, fab: Fabric, seen: map<Mark, Word>)
    requires job.Valid(fab)
  {
    forall p: nat, w: nat :: p < |job.phases| && job.Owns(w) ==> !Moved(job, fab, seen, p, w)
  }

  /** Word w in phase p was, and no other. */
  ghost predicate OnlyMove(job: Job, fab: Fabric, seen: map<Mark, Word>, p: nat, w: nat)
    requires job.Valid(fab)
  {
    && p < |job.phases| && job.Owns(w) && Moved(job, fab, seen, p, w)
    && forall q: nat, v: nat :: q < |job.phases| && job.Owns(v) && (q != p || v != w) ==> !Moved(job, fab, seen, q, v)
  }

  /**
   Whatever bits are stuck, without upsets a finished pass ends on the fault-free checksum: only the log shows them.
   */
  lemma {:induction false} ChecksumMissesStuckBits(jobs: seq<Job>, fab: Fabric, cells: seq<Word>, evs: seq<Event>,
      i: nat)
    requires Team(jobs, fab) && |cells| == fab.cellCount && AllPossible(jobs, fab, evs) && NoUpsets(evs)
    requires i < |jobs| && jobs[i].cfg.mode.Extreme? && jobs[i].press == Pressure && !jobs[i].cfg.inject
    requires Exec(jobs, fab, Begin(jobs, fab, cells), evs).workers[i].pc == Finished
    ensures Exec(jobs, fab, Begin(jobs, fab, cells), evs).workers[i].pressure == Base(jobs[i])
  {
    hide Exec, Begin, Xor, Base, PassSum, NothingSeen, Moved;
    NothingIsSeen(jobs, fab, cells, evs);
    ChecksumOfFinishedPass(jobs, fab, cells, evs, i);
    var seen := Exec(jobs, fab, Begin(jobs, fab, cells), evs).seen;
    forall p: nat, w: nat | p < |jobs[i].phases| && jobs[i].Owns(w)
      ensures !Moved(jobs[i], fab, seen, p, w)
    {
      UnseenAt(seen, FoldRead, p, w);
      UnseenAt(seen, RefoldRead, p, w);
      AgreeUnseen(jobs[i], fab, seen, p, w);
    }
  }

  /** Reads that saw the same drift agree. */
  lemma {:induction false} AgreeUnseen(job: Job, fab: Fabric, seen: map<Mark, Word>, p: nat, w: nat)
    requires job.Valid(fab) && p < |job.phases| && job.Owns(w) && !job.cfg.inject
    requires At(seen, FoldRead, p, w) == At(seen, RefoldRead, p, w)
    ensures !Moved(job, fab, seen, p, w)
  {}
}
