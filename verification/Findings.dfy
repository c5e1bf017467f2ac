/**
 The log of a worker in closed form, for any number of upsets over any stuck bits: which word is logged
 in which phase follows from what had drifted when the first stage and when the walk read it.
 */
module Findings {
  import opened Words
  import opened Reports
  import opened Memories
  import opened ChunkVerify
  import opened Machine
  import opened Tracking

  /** The drift word w had at a read of phase p. */
  function At(seen: map<Mark, Word>, access: Access, p: nat, w: nat): Word {
    var mark := Mark(access, p, w);
    if mark in seen then seen[mark] else 0
  }

  /** What word w reads as in phase p's verify half when d has drifted. */
  function Reading(job: Job, fab: Fabric, p: nat, w: nat, d: Word): Word
    requires job.Valid(fab) && p < |job.phases| && job.Owns(w)
  {
    Sense(fab.stuckLow[w], fab.stuckHigh[w], Xor(Full(job, fab, p, w), d))
  }

  /** The record of word w in phase p when d has drifted: it is logged exactly if it reads wrong. */
  function WordError(job: Job, fab: Fabric, p: nat, w: nat, d: Word): seq<ErrorRecord>
    requires job.Valid(fab) && p < |job.phases| && job.Owns(w)
  {
    var expected, actual := job.patterns[p](w), Reading(job, fab, p, w, d);
    if actual == expected then [] else [Mismatch(job.cfg, job.phases[p], w, expected, actual)]
  }

  /** What the walk logs of word w. */
  function WordFinding(job: Job, fab: Fabric, seen: map<Mark, Word>, p: nat, w: nat): seq<ErrorRecord>
    requires job.Valid(fab) && p < |job.phases| && job.Owns(w)
  {
    WordError(job, fab, p, w, At(seen, RecordRead, p, w))
  }

  function WalkFindings(job: Job, fab: Fabric, seen: map<Mark, Word>, p: nat, a: nat, b: nat): seq<ErrorRecord>
    requires job.Valid(fab) && p < |job.phases| && a <= b <= job.count
    decreases b
  {
    if a == b then [] else WalkFindings(job, fab, seen, p, a, b - 1) + WordFinding(job, fab, seen, p, job.start + b - 1)
  }

  /** The first stage saw word w read wrong. */
  predicate Suspect(job: Job, fab: Fabric, seen: map<Mark, Word>, p: nat, w: nat)
    requires job.Valid(fab) && p < |job.phases| && job.Owns(w)
  {
    Reading(job, fab, p, w, At(seen, ScanRead, p, w)) != job.patterns[p](w)
  }

  ghost predicate SuspectIn(job: Job, fab: Fabric, seen: map<Mark, Word>, p: nat, a: nat, b: nat)
    requires job.Valid(fab) && p < |job.phases| && a <= b <= job.count
  {
    exists w: nat :: job.start + a <= w < job.start + b && Suspect(job, fab, seen, p, w)
  }

  /** The words [a, b), one chunk, are walked. */
  ghost predicate Walked(job: Job, fab: Fabric, seen: map<Mark, Word>, p: nat, a: nat, b: nat)
    requires job.Valid(fab) && p < |job.phases| && a <= b <= job.count
  {
    job.phases[p].Walking? || SuspectIn(job, fab, seen, p, a, b)
  }

  ghost function ChunkFindings(job: Job, fab: Fabric, seen: map<Mark, Word>, p: nat, a: nat, b: nat): seq<ErrorRecord>
    requires job.Valid(fab) && p < |job.phases| && a <= b <= job.count
  {
    if Walked(job, fab, seen, p, a, b) then WalkFindings(job, fab, seen, p, a, b) else []
  }

  /** The errors phase p logs in the first done words, chunk by chunk. */
  ghost function PhaseFindings(job: Job, fab: Fabric, seen: map<Mark, Word>, p: nat, done: nat): seq<ErrorRecord>
    requires job.Valid(fab) && p < |job.phases| && done <= job.count
    decreases done
  {
    if done == 0 then []
    else
      var a := (done - 1) / CHUNK * CHUNK;
      PhaseFindings(job, fab, seen, p, a) + ChunkFindings(job, fab, seen, p, a, done)
  }

  /** The errors of the first p phases. */
  ghost function PassFindings(job: Job, fab: Fabric, seen: map<Mark, Word>, p: nat): seq<ErrorRecord>
    requires job.Valid(fab) && p <= |job.phases|
  {
    if p == 0 then [] else PassFindings(job, fab, seen, p - 1) + PhaseFindings(job, fab, seen, p - 1, job.count)
  }

  function LastRunning(job: Job, pc: Pc): (r: Pc)
    requires Fits(job, pc)
    ensures Fits(job, r) && !r.Stopped?
  {
    if pc.Stopped? then pc.at else pc
  }

  /** Log and first-stage flag of a worker at pc are what the drift at its reads makes them. */
  ghost predicate Explains(job: Job, fab: Fabric, seen: map<Mark, Word>, pc: Pc, log: seq<ErrorRecord>)
    requires job.Valid(fab) && Fits(job, pc)
  {
    match LastRunning(job, pc)
    case Verifying(p, done) => log == PassFindings(job, fab, seen, p) + PhaseFindings(job, fab, seen, p, done)
    case Scanning(p, done, k, dirty) =>
      && log == PassFindings(job, fab, seen, p) + PhaseFindings(job, fab, seen, p, done)
      && (dirty <==> SuspectIn(job, fab, seen, p, done, done + k))
    case Recording(p, done, k) =>
      && log == PassFindings(job, fab, seen, p) + PhaseFindings(job, fab, seen, p, done)
                + WalkFindings(job, fab, seen, p, done, done + k)
      && Walked(job, fab, seen, p, done, done + NextChunk(job.count, done))
    case Refolding(p, done, _) =>
      log == PassFindings(job, fab, seen, p) + PhaseFindings(job, fab, seen, p, done + NextChunk(job.count, done))
    case Finished => log == PassFindings(job, fab, seen, |job.phases|)
    case AtPhase(p) => log == PassFindings(job, fab, seen, p)
    case Writing(p, _) => log == PassFindings(job, fab, seen, p)
    case Storing(p, _, _) => log == PassFindings(job, fab, seen, p)
    case Folding(p, _, _) => log == PassFindings(job, fab, seen, p)
    case Injecting(p) => log == PassFindings(job, fab, seen, p)
  }

  // ----- later reads change no earlier finding

  /** Both records agree on the verify reads of all phases before p, and of the first d words in phase p. */
  ghost predicate SamePast(job: Job, seen: map<Mark, Word>, seen': map<Mark, Word>, p: nat, d: nat) {
    forall q: nat, w: nat :: job.Owns(w) && (q < p || (q == p && w < job.start + d)) ==> SameAt(seen, seen', q, w)
  }

  predicate SameAt(seen: map<Mark, Word>, seen': map<Mark, Word>, p: nat, w: nat) {
    At(seen, ScanRead, p, w) == At(seen', ScanRead, p, w) && At(seen, RecordRead, p, w) == At(seen', RecordRead, p, w)
  }

  lemma {:induction false} WalkFrame(job: Job, fab: Fabric, seen: map<Mark, Word>, seen': map<Mark, Word>, p: nat,
      a: nat, b: nat)
    requires job.Valid(fab) && p < |job.phases| && a <= b <= job.count
    requires forall w: nat :: job.start + a <= w < job.start + b ==> SameAt(seen, seen', p, w)
    ensures WalkFindings(job, fab, seen', p, a, b) == WalkFindings(job, fab, seen, p, a, b)
    ensures SuspectIn(job, fab, seen', p, a, b) == SuspectIn(job, fab, seen, p, a, b)
    decreases b
  {
    hide Reading, At;
    forall w: nat | job.start + a <= w < job.start + b
      ensures Suspect(job, fab, seen', p, w) == Suspect(job, fab, seen, p, w)
    {
      assert SameAt(seen, seen', p, w);
    }
    if a < b {
      WalkFrame(job, fab, seen, seen', p, a, b - 1);
      assert SameAt(seen, seen', p, job.start + b - 1);
    }
  }

  lemma {:induction false} PhaseFrame(job: Job, fab: Fabric, seen: map<Mark, Word>, seen': map<Mark, Word>, p: nat,
      done: nat)
    requires job.Valid(fab) && p < |job.phases| && done <= job.count && SamePast(job, seen, seen', p, done)
    ensures PhaseFindings(job, fab, seen', p, done) == PhaseFindings(job, fab, seen, p, done)
    decreases done
  {
    hide WalkFindings, SuspectIn, SameAt;
    if done > 0 {
      var a := (done - 1) / CHUNK * CHUNK;
      PhaseFrame(job, fab, seen, seen', p, a);
      WalkFrame(job, fab, seen, seen', p, a, done);
    }
  }

  lemma {:induction false} PassFrame(job: Job, fab: Fabric, seen: map<Mark, Word>, seen': map<Mark, Word>, p: nat)
    requires job.Valid(fab) && p <= |job.phases| && SamePast(job, seen, seen', p, 0)
    ensures PassFindings(job, fab, seen', p) == PassFindings(job, fab, seen, p)
  {
    hide PhaseFindings, SameAt;
    if p > 0 {
      PassFrame(job, fab, seen, seen', p - 1);
      PhaseFrame(job, fab, seen, seen', p - 1, job.count);
    }
  }

  lemma {:induction false} OtherMark(seen: map<Mark, Word>, mark: Mark, d: Word, p: nat, w: nat)
    requires mark.p != p || mark.w != w || mark.access.FoldRead? || mark.access.RefoldRead?
    ensures SameAt(seen, seen[mark := d], p, w)
  {}

  lemma {:induction false} ThisMark(seen: map<Mark, Word>, mark: Mark, d: Word)
    ensures At(seen[mark := d], mark.access, mark.p, mark.w) == d
    ensures mark.access.RecordRead? ==>
      forall p: nat, w: nat :: At(seen[mark := d], ScanRead, p, w) == At(seen, ScanRead, p, w)
  {}

  /** A record that agrees on everything so far explains the same worker. */
  lemma {:induction false} ExplainsFrame(job: Job, fab: Fabric, seen: map<Mark, Word>, seen': map<Mark, Word>, pc: Pc,
      log: seq<ErrorRecord>)
    requires job.Valid(fab) && Fits(job, pc) && Explains(job, fab, seen, pc, log)
    requires forall q: nat, w: nat :: job.Owns(w) ==> SameAt(seen, seen', q, w)
    ensures Explains(job, fab, seen', pc, log)
  {
    hide PassFindings, PhaseFindings, WalkFindings, SuspectIn, SameAt;
    var at := LastRunning(job, pc);
    if !at.Finished? {
      PassFrame(job, fab, seen, seen', at.p);
    } else {
      PassFrame(job, fab, seen, seen', |job.phases|);
    }
    match at
    case Verifying(p, done) => PhaseFrame(job, fab, seen, seen', p, done);
    case Scanning(p, done, k, _) =>
      PhaseFrame(job, fab, seen, seen', p, done);
      WalkFrame(job, fab, seen, seen', p, done, done + k);
    case Recording(p, done, k) =>
      PhaseFrame(job, fab, seen, seen', p, done);
      WalkFrame(job, fab, seen, seen', p, done, done + k);
      WalkFrame(job, fab, seen, seen', p, done, done + NextChunk(job.count, done));
    case Refolding(p, done, _) => PhaseFrame(job, fab, seen, seen', p, done + NextChunk(job.count, done));
    case _ =>
  }

  // ----- the steps

  lemma {:induction false} ReadsAs(job: Job, fab: Fabric, cells: seq<Word>, drift: seq<Word>, pc: Pc, w: nat)
    requires job.Valid(fab) && Fits(job, pc) && job.Owns(w) && |cells| == fab.cellCount && |drift| == |fab.wires|
    requires pc.Scanning? || pc.Recording? || pc.Refolding?
    requires HoldsAll(job, fab, cells, drift, pc)
    ensures Load(fab, cells, w) == Reading(job, fab, pc.p, w, drift[w])
  {
    hide Sense, Xor, Full;
    assert Holds(job, fab, cells, drift, pc, w);
  }

  lemma {:induction false} PhaseGrows(job: Job, fab: Fabric, seen: map<Mark, Word>, p: nat, done: nat)
    requires job.Valid(fab) && p < |job.phases| && ChunkAt(job, done)
    ensures var b := done + NextChunk(job.count, done);
      PhaseFindings(job, fab, seen, p, b)
        == PhaseFindings(job, fab, seen, p, done) + ChunkFindings(job, fab, seen, p, done, b)
  {
    hide ChunkFindings;
    var b := done + NextChunk(job.count, done);
    StartOfChunk(done, b);
  }

  lemma StartOfChunk(done: nat, b: nat)
    requires done % CHUNK == 0 && done < b <= done + CHUNK
    ensures (b - 1) / CHUNK * CHUNK == done
  {
    var q := done / CHUNK;
    assert done == q * CHUNK;
    assert (b - 1) / CHUNK == q;
  }

  lemma {:induction false} NothingYet(job: Job, fab: Fabric, seen: map<Mark, Word>, p: nat)
    requires job.Valid(fab) && p < |job.phases|
    ensures PassFindings(job, fab, seen, p) + PhaseFindings(job, fab, seen, p, 0) == PassFindings(job, fab, seen, p)
  {}

  lemma {:induction false} NothingWalked(job: Job, fab: Fabric, seen: map<Mark, Word>, p: nat, a: nat,
      log: seq<ErrorRecord>)
    requires job.Valid(fab) && p < |job.phases| && a <= job.count
    ensures log + WalkFindings(job, fab, seen, p, a, a) == log && !SuspectIn(job, fab, seen, p, a, a)
  {}

  lemma {:induction false} PhaseExplained(job: Job, fab: Fabric, seen: map<Mark, Word>, p: nat, log: seq<ErrorRecord>)
    requires job.Valid(fab) && p < |job.phases|
    requires log == PassFindings(job, fab, seen, p) + PhaseFindings(job, fab, seen, p, job.count)
    ensures Explains(job, fab, seen, AfterPhase(job, p), log)
  {
    hide PhaseFindings;
  }

  lemma {:induction false} EndExplained(job: Job, fab: Fabric, seen: map<Mark, Word>, wk: Worker, p: nat, done: nat)
    requires job.Valid(fab) && p < |job.phases| && ChunkAt(job, done)
    requires wk.log
      == PassFindings(job, fab, seen, p) + PhaseFindings(job, fab, seen, p, done + NextChunk(job.count, done))
    ensures Explains(job, fab, seen, EndVerify(job, wk, p, done).pc, wk.log)
    ensures Explains(job, fab, seen, EndErrors(job, wk, p, done).pc, wk.log)
    ensures EndVerify(job, wk, p, done).log == EndErrors(job, wk, p, done).log == wk.log
  {
    hide PassFindings, PhaseFindings;
    if done + NextChunk(job.count, done) == job.count {
      PhaseExplained(job, fab, seen, p, wk.log);
    }
  }

  lemma {:induction false} ScanExplained(job: Job, fab: Fabric, cells: seq<Word>, drift: seq<Word>, seen: map<Mark,
      Word>, wk: Worker)
    requires job.Valid(fab) && |cells| == fab.cellCount && |drift| == |fab.wires|
    requires wk.pc.Scanning? && Fits(job, wk.pc) && HoldsAll(job, fab, cells, drift, wk.pc)
    requires Explains(job, fab, seen, wk.pc, wk.log)
    ensures var next := VerifyStep(job, fab, cells, wk);
      next.log == wk.log && Explains(job, fab, SeenAfter(job, drift, seen, wk.pc), next.pc, next.log)
  {
    hide PassFindings, PhaseFindings, WalkFindings, Reading, Load, At, EndErrors, SameAt, HoldsAll;
    var p, done, k := wk.pc.p, wk.pc.done, wk.pc.k;
    var w, c := WordAt(job, wk.pc), NextChunk(job.count, done);
    var mark := Mark(ScanRead, p, w);
    var seen' := seen[mark := drift[w]];
    forall q: nat, v: nat | job.Owns(v) && (q < p || (q == p && v < job.start + (done + k)))
      ensures SameAt(seen, seen', q, v)
    {
      OtherMark(seen, mark, drift[w], q, v);
    }
    PassFrame(job, fab, seen, seen', p);
    PhaseFrame(job, fab, seen, seen', p, done);
    WalkFrame(job, fab, seen, seen', p, done, done + k);
    ThisMark(seen, mark, drift[w]);
    ReadsAs(job, fab, cells, drift, wk.pc, w);
    OneMoreSuspect(job, fab, seen', p, done, done + k);
    PhaseGrows(job, fab, seen', p, done);
    NothingWalked(job, fab, seen', p, done, wk.log);
    if k + 1 == c && !SuspectIn(job, fab, seen', p, done, done + c) {
      assert wk.log + [] == wk.log;
      assert PhaseFindings(job, fab, seen', p, done + c) == PhaseFindings(job, fab, seen', p, done) + [];
      EndExplained(job, fab, seen', wk, p, done);
    }
  }

  lemma {:induction false} OneMoreSuspect(job: Job, fab: Fabric, seen: map<Mark, Word>, p: nat, a: nat, b: nat)
    requires job.Valid(fab) && p < |job.phases| && a <= b < job.count
    ensures SuspectIn(job, fab, seen, p, a, b + 1) <==>
      SuspectIn(job, fab, seen, p, a, b) || Suspect(job, fab, seen, p, job.start + b)
  {
    hide Suspect;
  }

  lemma {:induction false} RecordExplained(job: Job, fab: Fabric, cells: seq<Word>, drift: seq<Word>, seen: map<Mark,
      Word>,
      wk: Worker)
    requires job.Valid(fab) && |cells| == fab.cellCount && |drift| == |fab.wires|
    requires wk.pc.Recording? && Fits(job, wk.pc) && HoldsAll(job, fab, cells, drift, wk.pc)
    requires Explains(job, fab, seen, wk.pc, wk.log)
    ensures var next := VerifyStep(job, fab, cells, wk);
      Explains(job, fab, SeenAfter(job, drift, seen, wk.pc), next.pc, next.log)
  {
    hide PassFindings, PhaseFindings, WalkFindings, Reading, Load, At, EndErrors, SameAt, HoldsAll;
    var p, done, k := wk.pc.p, wk.pc.done, wk.pc.k;
    var w, c := WordAt(job, wk.pc), NextChunk(job.count, done);
    var mark := Mark(RecordRead, p, w);
    var seen' := seen[mark := drift[w]];
    forall q: nat, v: nat | job.Owns(v) && (q < p || (q == p && v < job.start + (done + k)))
      ensures SameAt(seen, seen', q, v)
    {
      OtherMark(seen, mark, drift[w], q, v);
    }
    PassFrame(job, fab, seen, seen', p);
    PhaseFrame(job, fab, seen, seen', p, done);
    WalkFrame(job, fab, seen, seen', p, done, done + k);
    ThisMark(seen, mark, drift[w]);
    ReadsAs(job, fab, cells, drift, wk.pc, w);
    SameSuspects(job, fab, seen, seen', p, done, done + c);
    var logged := wk.(log := wk.log + ErrorAt(job, fab, cells, p, w));
    WalkOneMore(job, fab, cells, seen', p, done, done + k,
                PassFindings(job, fab, seen', p) + PhaseFindings(job, fab, seen', p, done));
    if k + 1 == c {
      PhaseGrows(job, fab, seen', p, done);
      assert logged.log == PassFindings(job, fab, seen', p)
        + (PhaseFindings(job, fab, seen', p, done) + WalkFindings(job, fab, seen', p, done, done + c));
      EndExplained(job, fab, seen', logged, p, done);
      EndKeepsLog(job, logged, p, done);
    }
  }

  lemma {:induction false} EndKeepsLog(job: Job, wk: Worker, p: nat, done: nat)
    requires p < |job.phases| && ChunkAt(job, done)
    ensures EndErrors(job, wk, p, done).log == wk.log && EndVerify(job, wk, p, done).log == wk.log
    ensures EndWrite(job, wk, p, done).log == wk.log && EndStores(job, wk, p, done).log == wk.log
  {
    hide ChunkAt, NextChunk, AfterPhase;
  }

  lemma {:induction false} SameSuspects(job: Job, fab: Fabric, seen: map<Mark, Word>, seen': map<Mark, Word>, p: nat,
      a: nat, b: nat)
    requires job.Valid(fab) && p < |job.phases| && a <= b <= job.count
    requires forall q: nat, w: nat :: At(seen', ScanRead, q, w) == At(seen, ScanRead, q, w)
    ensures SuspectIn(job, fab, seen', p, a, b) == SuspectIn(job, fab, seen, p, a, b)
  {
    hide Reading, At;
    forall w: nat | job.start + a <= w < job.start + b
      ensures Suspect(job, fab, seen', p, w) == Suspect(job, fab, seen, p, w)
    {}
  }

  lemma {:induction false} WalkOneMore(job: Job, fab: Fabric, cells: seq<Word>, seen: map<Mark, Word>, p: nat, a: nat,
      b: nat, log: seq<ErrorRecord>)
    requires job.Valid(fab) && |cells| == fab.cellCount && p < |job.phases| && a <= b < job.count
    requires Load(fab, cells, job.start + b)
      == Reading(job, fab, p, job.start + b, At(seen, RecordRead, p, job.start + b))
    ensures log + WalkFindings(job, fab, seen, p, a, b) + ErrorAt(job, fab, cells, p, job.start + b)
         == log + WalkFindings(job, fab, seen, p, a, b + 1)
  {
    hide Reading, Load, At;
    var w := job.start + b;
    assert ErrorAt(job, fab, cells, p, w) == WordFinding(job, fab, seen, p, w);
    assert log + WalkFindings(job, fab, seen, p, a, b) + WordFinding(job, fab, seen, p, w)
        == log + (WalkFindings(job, fab, seen, p, a, b) + WordFinding(job, fab, seen, p, w));
  }

  /** Steps that make no verify read. */
  lemma {:induction false} OtherExplained(job: Job, fab: Fabric, cells: seq<Word>, drift: seq<Word>, seen: map<Mark,
      Word>,
      wk: Worker)
    requires job.Valid(fab) && |cells| == fab.cellCount && |drift| == |fab.wires|
    requires Running(wk.pc) && !wk.pc.Scanning? && !wk.pc.Recording? && Fits(job, wk.pc)
    requires Explains(job, fab, seen, wk.pc, wk.log)
    ensures var next := StepWorker(job, fab, cells, wk);
      next.log == wk.log && Explains(job, fab, seen, next.pc, next.log)
  {
    hide PassFindings, PhaseFindings, WalkFindings, SuspectIn, Load, Pressed, EndWrite, EndVerify, EndErrors;
    match wk.pc
    case AtPhase(p) =>
      NothingYet(job, fab, seen, p);
      if job.count == 0 {
        PhaseExplained(job, fab, seen, p, wk.log);
      }
    case Storing(p, done, _) => WriteEndExplained(job, fab, seen, wk, p, done);
    case Folding(p, done, k) =>
      WriteEndExplained(job, fab, seen, wk.(pressure := Pressed(job, fab, cells, wk.pressure, job.start + done + k)),
        p, done);
    case Injecting(p) => NothingYet(job, fab, seen, p);
    case Verifying(p, done) => NothingWalked(job, fab, seen, p, done, wk.log);
    case Refolding(p, done, k) =>
      EndExplained(job, fab, seen, wk.(pressure := Pressed(job, fab, cells, wk.pressure, job.start + done + k)), p,
        done);
    case Writing(_, _) =>
  }

  lemma {:induction false} WriteEndExplained(job: Job, fab: Fabric, seen: map<Mark, Word>, wk: Worker, p: nat,
      done: nat)
    requires job.Valid(fab) && p < |job.phases| && ChunkAt(job, done) && wk.log == PassFindings(job, fab, seen, p)
    ensures Explains(job, fab, seen, EndWrite(job, wk, p, done).pc, wk.log)
    ensures Explains(job, fab, seen, EndStores(job, wk, p, done).pc, wk.log)
    ensures EndWrite(job, wk, p, done).log == EndStores(job, wk, p, done).log == wk.log
  {
    hide PassFindings, PhaseFindings;
    NothingYet(job, fab, seen, p);
  }

  lemma {:induction false} SeenElsewhere(job: Job, drift: seq<Word>, seen: map<Mark, Word>, pc: Pc, q: nat, w: nat)
    requires Fits(job, pc) && job.start + job.count <= |drift|
    requires !job.Owns(w) || (!pc.Scanning? && !pc.Recording?)
    ensures SameAt(seen, SeenAfter(job, drift, seen, pc), q, w)
  {
    var mark := MarkOf(job, pc);
    if mark.Some? {
      OtherMark(seen, mark.value, drift[mark.value.w], q, w);
    }
  }

  lemma {:induction false} StepExplained(job: Job, fab: Fabric, cells: seq<Word>, drift: seq<Word>, seen: map<Mark,
      Word>,
      wk: Worker, stop: bool)
    requires job.Valid(fab) && |cells| == fab.cellCount && |drift| == |fab.wires|
    requires Running(wk.pc) && Fits(job, wk.pc) && HoldsAll(job, fab, cells, drift, wk.pc)
    requires Explains(job, fab, seen, wk.pc, wk.log)
    ensures var next := Step(job, fab, cells, wk, stop).1;
      Explains(job, fab, SeenAfter(job, drift, seen, wk.pc), next.pc, next.log)
  {
    hide HoldsAll, SameAt, WriteStep, VerifyStep, StepCells, SeenAfter, PassFindings, PhaseFindings, WalkFindings,
         Walked, SuspectIn;
    if wk.pc.Scanning? {
      ScanExplained(job, fab, cells, drift, seen, wk);
    } else if wk.pc.Recording? {
      RecordExplained(job, fab, cells, drift, seen, wk);
    } else {
      var seen' := SeenAfter(job, drift, seen, wk.pc);
      forall q: nat, w: nat | job.Owns(w)
        ensures SameAt(seen, seen', q, w)
      {
        SeenElsewhere(job, drift, seen, wk.pc, q, w);
      }
      ExplainsFrame(job, fab, seen, seen', wk.pc, wk.log);
      if !(stop && Polls(wk.pc)) {
        OtherExplained(job, fab, cells, drift, seen', wk);
      }
    }
  }

  // ----- whole runs

  lemma {:induction false} FreshExplained(job: Job, fab: Fabric)
    requires job.Valid(fab)
    ensures Explains(job, fab, map[], Fresh(job).pc, Fresh(job).log)
  {}

  /**
   In every reachable state, for any number of upsets at any moments and any stuck bits, each worker's log
   is what its reads make it: a chunk is walked if its first stage saw a word read wrong, and the walk logs
   the words that it then reads wrong itself.
   */
  lemma {:induction false} LogIsExplained(jobs: seq<Job>, fab: Fabric, cells: seq<Word>, evs: seq<Event>, i: nat)
    requires Team(jobs, fab) && |cells| == fab.cellCount && AllPossible(jobs, fab, evs)
    requires i < |jobs|
    ensures var wd := Exec(jobs, fab, Begin(jobs, fab, cells), evs);
      Explains(jobs[i], fab, wd.seen, wd.workers[i].pc, wd.workers[i].log)
  {
    hide Step, DriftAfter, SeenAfter, HoldsAll, Explains, SameAt, Xor;
    if evs == [] {
      FreshExplained(jobs[i], fab);
    } else {
      var init, ev := evs[..|evs| - 1], evs[|evs| - 1];
      LogIsExplained(jobs, fab, cells, init, i);
      var wd := Exec(jobs, fab, Begin(jobs, fab, cells), init);
      if ev.Work? && Running(wd.workers[ev.i].pc) {
        ExecTracks(jobs, fab, cells, init);
        var pc := wd.workers[ev.i].pc;
        if ev.i == i {
          StepExplained(jobs[i], fab, wd.cells, wd.drift, wd.seen, wd.workers[i], ev.stop);
        } else {
          var seen' := SeenAfter(jobs[ev.i], wd.drift, wd.seen, pc);
          forall q: nat, w: nat | jobs[i].Owns(w)
            ensures SameAt(wd.seen, seen', q, w)
          {
            SeenElsewhere(jobs[ev.i], wd.drift, wd.seen, pc, q, w);
          }
          ExplainsFrame(jobs[i], fab, wd.seen, seen', wd.workers[i].pc, wd.workers[i].log);
        }
      }
    }
  }

  // ----- upsets that spare the chunk being verified

  /** The records of the words [a, b) in phase p, given the drift of each. */
  function ErrorsOf(job: Job, fab: Fabric, p: nat, drift: nat -> Word, a: nat, b: nat): seq<ErrorRecord>
    requires job.Valid(fab) && p < |job.phases| && a <= b <= job.count
    decreases b
  {
    if a == b then []
    else ErrorsOf(job, fab, p, drift, a, b - 1) + WordError(job, fab, p, job.start + b - 1, drift(job.start + b - 1))
  }

  /** In the chunk [a, b) both verify stages saw the same drift. */
  ghost predicate SteadyChunk(job: Job, fab: Fabric, seen: map<Mark, Word>, p: nat, drift: nat -> Word, a: nat, b: nat)
    requires job.Valid(fab) && p < |job.phases| && a <= b <= job.count
  {
    && (forall w: nat :: job.start + a <= w < job.start + b && !job.phases[p].Walking? ==>
          At(seen, ScanRead, p, w) == drift(w))
    && (Walked(job, fab, seen, p, a, b) ==>
          forall w: nat :: job.start + a <= w < job.start + b ==> At(seen, RecordRead, p, w) == drift(w))
  }

  /** They did in every chunk of phase p. */
  ghost predicate Steady(job: Job, fab: Fabric, seen: map<Mark, Word>, p: nat, drift: nat -> Word)
    requires job.Valid(fab) && p < |job.phases|
  {
    forall a: nat :: ChunkAt(job, a) ==> SteadyChunk(job, fab, seen, p, drift, a, a + NextChunk(job.count, a))
  }

  lemma {:induction false} ErrorsConcat(job: Job, fab: Fabric, p: nat, drift: nat -> Word, a: nat, b: nat, c: nat)
    requires job.Valid(fab) && p < |job.phases| && a <= b <= c <= job.count
    ensures ErrorsOf(job, fab, p, drift, a, c)
      == ErrorsOf(job, fab, p, drift, a, b) + ErrorsOf(job, fab, p, drift, b, c)
    decreases c
  {
    hide WordError;
    if b < c {
      ErrorsConcat(job, fab, p, drift, a, b, c - 1);
    }
  }

  lemma {:induction false} WalkIsErrors(job: Job, fab: Fabric, seen: map<Mark, Word>, p: nat, drift: nat -> Word,
      a: nat, b: nat)
    requires job.Valid(fab) && p < |job.phases| && a <= b <= job.count
    requires forall w: nat :: job.start + a <= w < job.start + b ==> At(seen, RecordRead, p, w) == drift(w)
    ensures WalkFindings(job, fab, seen, p, a, b) == ErrorsOf(job, fab, p, drift, a, b)
    decreases b
  {
    hide Reading, At;
    if a < b {
      WalkIsErrors(job, fab, seen, p, drift, a, b - 1);
    }
  }

  lemma {:induction false} UnsuspectedHasNoErrors(job: Job, fab: Fabric, seen: map<Mark, Word>, p: nat,
      drift: nat -> Word, a: nat, b: nat)
    requires job.Valid(fab) && p < |job.phases| && a <= b <= job.count
    requires forall w: nat :: job.start + a <= w < job.start + b ==> At(seen, ScanRead, p, w) == drift(w)
    requires !SuspectIn(job, fab, seen, p, a, b)
    ensures ErrorsOf(job, fab, p, drift, a, b) == []
    decreases b
  {
    hide Reading, At;
    if a < b {
      UnsuspectedHasNoErrors(job, fab, seen, p, drift, a, b - 1);
      assert !Suspect(job, fab, seen, p, job.start + b - 1);
    }
  }

  /**
   Whenever no upset falls between the two stages of a chunk, the shortcut is exact for any drift and any
   stuck bits: word w of phase p is logged exactly when stored value and drift, sensed together, read wrong.
   */
  lemma {:induction false} SteadyPhase(job: Job, fab: Fabric, seen: map<Mark, Word>, p: nat, drift: nat -> Word,
      done: nat)
    requires job.Valid(fab) && p < |job.phases| && done <= job.count && (done == job.count || done % CHUNK == 0)
    requires Steady(job, fab, seen, p, drift)
    ensures PhaseFindings(job, fab, seen, p, done) == ErrorsOf(job, fab, p, drift, 0, done)
    decreases done
  {
    hide ErrorsOf, WalkFindings, SuspectIn, At;
    if done == 0 {
      NoErrors(job, fab, p, drift);
    } else {
      var a := (done - 1) / CHUNK * CHUNK;
      LastChunk(job, done);
      SteadyPhase(job, fab, seen, p, drift, a);
      assert SteadyChunk(job, fab, seen, p, drift, a, done);
      ErrorsConcat(job, fab, p, drift, 0, a, done);
      if Walked(job, fab, seen, p, a, done) {
        WalkIsErrors(job, fab, seen, p, drift, a, done);
      } else {
        UnsuspectedHasNoErrors(job, fab, seen, p, drift, a, done);
      }
    }
  }

  lemma {:induction false} NoErrors(job: Job, fab: Fabric, p: nat, drift: nat -> Word)
    requires job.Valid(fab) && p < |job.phases|
    ensures ErrorsOf(job, fab, p, drift, 0, 0) == []
  {}

  lemma {:induction false} LastChunk(job: Job, done: nat)
    requires 0 < done <= job.count && (done == job.count || done % CHUNK == 0)
    ensures var a := (done - 1) / CHUNK * CHUNK; ChunkAt(job, a) && a + NextChunk(job.count, a) == done
  {
    var q := (done - 1) / CHUNK;
    assert q * CHUNK <= done - 1 < (q + 1) * CHUNK;
    ModUnique(q * CHUNK, 0, q, CHUNK);
    if done % CHUNK == 0 {
      assert done == (q + 1) * CHUNK;
    }
  }

  // ----- what the records of a log say

  /** The record describes what the walk of phase p read of word w in place of the word of its pattern. */
  predicate Tells(job: Job, fab: Fabric, seen: map<Mark, Word>, p: nat, w: nat, e: ErrorRecord)
    requires job.Valid(fab) && p < |job.phases| && job.Owns(w)
  {
    && e.mode == job.cfg.mode && e.seed == job.cfg.seed && e.pass == job.cfg.pass && e.workerId == job.cfg.workerId
    && e.phase == job.phases[p] && e.offset == 8 * w
    && e.expected == job.patterns[p](w) && e.actual == Reading(job, fab, p, w, At(seen, RecordRead, p, w))
    && e.actual != e.expected
  }

  ghost predicate Genuine(job: Job, fab: Fabric, seen: map<Mark, Word>, e: ErrorRecord)
    requires job.Valid(fab)
  {
    exists p: nat, w: nat :: p < |job.phases| && job.Owns(w) && Tells(job, fab, seen, p, w, e)
  }

  ghost predicate AllGenuine(job: Job, fab: Fabric, seen: map<Mark, Word>, log: seq<ErrorRecord>)
    requires job.Valid(fab)
  {
    forall e :: e in log ==> Genuine(job, fab, seen, e)
  }

  lemma {:induction false} WalkIsGenuine(job: Job, fab: Fabric, seen: map<Mark, Word>, p: nat, a: nat, b: nat)
    requires job.Valid(fab) && p < |job.phases| && a <= b <= job.count
    ensures AllGenuine(job, fab, seen, WalkFindings(job, fab, seen, p, a, b))
    decreases b
  {
    hide Reading, At;
    if a < b {
      WalkIsGenuine(job, fab, seen, p, a, b - 1);
      var w := job.start + b - 1;
      forall e | e in WordFinding(job, fab, seen, p, w)
        ensures Genuine(job, fab, seen, e)
      {
        assert job.Owns(w) && Tells(job, fab, seen, p, w, e);
      }
    }
  }

  lemma {:induction false} PhaseIsGenuine(job: Job, fab: Fabric, seen: map<Mark, Word>, p: nat, done: nat)
    requires job.Valid(fab) && p < |job.phases| && done <= job.count
    ensures AllGenuine(job, fab, seen, PhaseFindings(job, fab, seen, p, done))
    decreases done
  {
    hide WalkFindings, Walked, Genuine;
    if done > 0 {
      var a := (done - 1) / CHUNK * CHUNK;
      PhaseIsGenuine(job, fab, seen, p, a);
      WalkIsGenuine(job, fab, seen, p, a, done);
    }
  }

  lemma {:induction false} PassIsGenuine(job: Job, fab: Fabric, seen: map<Mark, Word>, p: nat)
    requires job.Valid(fab) && p <= |job.phases|
    ensures AllGenuine(job, fab, seen, PassFindings(job, fab, seen, p))
  {
    hide PhaseFindings, Genuine;
    if p > 0 {
      PassIsGenuine(job, fab, seen, p - 1);
      PhaseIsGenuine(job, fab, seen, p - 1, job.count);
    }
  }

  lemma {:induction false} ExplainedIsGenuine(job: Job, fab: Fabric, seen: map<Mark, Word>, pc: Pc,
      log: seq<ErrorRecord>)
    requires job.Valid(fab) && Fits(job, pc) && Explains(job, fab, seen, pc, log)
    ensures AllGenuine(job, fab, seen, log)
  {
    hide PassFindings, PhaseFindings, WalkFindings, Walked, SuspectIn, Genuine;
    var at := LastRunning(job, pc);
    PassIsGenuine(job, fab, seen, if at.Finished? then |job.phases| else at.p);
    match at
    case Verifying(p, done) => PhaseIsGenuine(job, fab, seen, p, done);
    case Scanning(p, done, _, _) => PhaseIsGenuine(job, fab, seen, p, done);
    case Recording(p, done, k) =>
      PhaseIsGenuine(job, fab, seen, p, done);
      WalkIsGenuine(job, fab, seen, p, done, done + k);
    case Refolding(p, done, _) => PhaseIsGenuine(job, fab, seen, p, done + NextChunk(job.count, done));
    case _ =>
  }

  /** No run ever logs anything else than a word of the slice that was read wrong, as it was read. */
  lemma {:induction false} LogsAreGenuine(jobs: seq<Job>, fab: Fabric, cells: seq<Word>, evs: seq<Event>, i: nat)
    requires Team(jobs, fab) && |cells| == fab.cellCount && AllPossible(jobs, fab, evs) && i < |jobs|
    ensures var wd := Exec(jobs, fab, Begin(jobs, fab, cells), evs);
      AllGenuine(jobs[i], fab, wd.seen, wd.workers[i].log)
  {
    hide Exec, Begin, Explains, AllGenuine;
    LogIsExplained(jobs, fab, cells, evs, i);
    var wd := Exec(jobs, fab, Begin(jobs, fab, cells), evs);
    ExplainedIsGenuine(jobs[i], fab, wd.seen, wd.workers[i].pc, wd.workers[i].log);
  }
}
