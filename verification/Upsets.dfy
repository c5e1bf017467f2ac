/**
 A transient fault: one bit upset at an arbitrary moment between two word accesses of an arbitrary
 interleaving. It is logged exactly when it strikes a word between its store and its first verify read,
 and it moves the Extreme checksum exactly when it strikes between the two fold reads of the word.
 */
module Upsets {
  import opened Words
  import opened Patterns
  import opened Reports
  import opened Memories
  import opened ChunkVerify
  import opened Machine
  import opened Tracking
  import opened Findings
  import opened Detection
  import opened Checksum

  function PhaseAt(pc: Pc): nat {
    match pc
    case Finished => 0
    case Stopped(at) => PhaseAt(at)
    case _ => pc.p
  }

  /** Word w was stored in the present phase and its first verify read is still to come. */
  predicate Live(job: Job, pc: Pc, w: nat)
    requires Fits(job, pc)
  {
    match pc
    case AtPhase(_) => false
    case Writing(_, done) => w < job.start + done
    case Storing(_, done, k) => w < job.start + done + k
    case Folding(_, done, _) => w < job.start + done + NextChunk(job.count, done)
    case Injecting(_) => true
    case Verifying(_, done) => w >= job.start + done
    case Scanning(_, done, k, _) => w >= job.start + done + k
    case Recording(p, done, k) =>
      w >= job.start + done + if job.phases[p].Walking? then k else NextChunk(job.count, done)
    case Refolding(_, done, _) => w >= job.start + done + NextChunk(job.count, done)
    case Finished => false
    case Stopped(at) => Live(job, at, w)
  }

  lemma {:induction false} LivePhase(job: Job, pc: Pc, w: nat)
    requires Fits(job, pc) && Live(job, pc, w)
    ensures PhaseAt(pc) < |job.phases|
    decreases pc
  {
    if pc.Stopped? {
      LivePhase(job, pc.at, w);
    }
  }

  /** The one record such an upset can cause. */
  function UpsetError(job: Job, p: nat, w: nat, mask: Word): ErrorRecord
    requires p < |job.phases| == |job.patterns|
  {
    Mismatch(job.cfg, job.phases[p], w, job.patterns[p](w), Xor(job.patterns[p](w), mask))
  }

  /** Nothing has drifted but word w, and that by mask if at all. */
  ghost predicate OnlyAt(drift: seq<Word>, w: nat, mask: Word) {
    && w < |drift| && (drift[w] == 0 || drift[w] == mask)
    && forall v: nat :: v < |drift| && v != w ==> drift[v] == 0
  }

  // ----- reads

  lemma MaskShows(v: Word, mask: Word)
    ensures Xor(v, mask) == v <==> mask == 0
  {}

  lemma {:induction false} IntactReading(job: Job, fab: Fabric, p: nat, v: nat, d: Word)
    requires job.Valid(fab) && fab.NoStuckBits() && !job.cfg.inject && p < |job.phases| && job.Owns(v)
    ensures Reading(job, fab, p, v, d) == Xor(job.patterns[p](v), d)
  {
    hide Xor, Sense;
    SenseIntact(Xor(job.patterns[p](v), d));
  }

  /** What a verify step reads, and what it logs if it is the walk's. */
  lemma {:induction false} VerifyReads(job: Job, fab: Fabric, cells: seq<Word>, drift: seq<Word>, pc: Pc, w: nat,
      mask: Word)
    requires job.Valid(fab) && fab.NoStuckBits() && !job.cfg.inject
    requires |cells| == fab.cellCount && |drift| == |fab.wires| && OnlyAt(drift, w, mask)
    requires (pc.Scanning? || pc.Recording?) && Fits(job, pc) && HoldsAll(job, fab, cells, drift, pc)
    ensures var v := WordAt(job, pc);
      && (Load(fab, cells, v) == job.patterns[pc.p](v) <==> v != w || drift[w] == 0)
      && ErrorAt(job, fab, cells, pc.p, v) == if v == w && drift[w] != 0 then [UpsetError(job, pc.p, w, mask)] else []
  {
    hide Xor, Load, HoldsAll, Reading;
    var v := WordAt(job, pc);
    ReadsAs(job, fab, cells, drift, pc, v);
    IntactReading(job, fab, pc.p, v, drift[v]);
    MaskShows(job.patterns[pc.p](v), drift[v]);
  }

  // ----- the log

  /** Only words the upset spared were read wrong or are being walked. */
  ghost predicate Unnoticed(job: Job, pc: Pc)
    requires Fits(job, pc)
  {
    (pc.Scanning? ==> !pc.dirty) && (pc.Recording? ==> job.phases[pc.p].Walking?)
  }

  /** The upset is still to be found. */
  ghost predicate Armed(job: Job, wk: Worker, drift: seq<Word>, w: nat, mask: Word, p: nat)
    requires Fits(job, wk.pc) && w < |drift|
  {
    Live(job, wk.pc, w) && PhaseAt(wk.pc) == p && drift[w] == mask && wk.log == [] && Unnoticed(job, wk.pc)
  }

  /** The first stage has seen it, and the walk is still to record it. */
  ghost predicate Caught(job: Job, wk: Worker, drift: seq<Word>, w: nat, mask: Word, p: nat)
    requires Fits(job, wk.pc) && w < |drift|
  {
    && wk.log == [] && drift[w] == mask
    && match wk.pc
       case Scanning(q, done, k, dirty) => q == p && dirty && job.start + done <= w < job.start + done + k
       case Recording(q, done, k) =>
         q == p && !job.phases[q].Walking? && job.start + done + k <= w < job.start + done + NextChunk(job.count, done)
       case _ => false
  }

  /** The upset can do no more: if its word is live, it has been stored again. */
  ghost predicate Spent(job: Job, wk: Worker, drift: seq<Word>, w: nat, log: seq<ErrorRecord>)
    requires Fits(job, wk.pc) && w < |drift|
  {
    && wk.log == log && (Live(job, wk.pc, w) ==> drift[w] == 0)
    && (wk.pc.Scanning? ==> !wk.pc.dirty)
    && (wk.pc.Recording? && !job.phases[wk.pc.p].Walking? ==> w < WordAt(job, wk.pc))
  }

  lemma {:induction false} LiveAfterVerify(job: Job, wk: Worker, p: nat, done: nat, w: nat)
    requires p < |job.phases| && ChunkAt(job, done) && job.Owns(w)
    ensures var b, pc := job.start + done + NextChunk(job.count, done), EndVerify(job, wk, p, done).pc;
      && (Live(job, pc, w) <==> w >= b) && (w >= b ==> PhaseAt(pc) == p) && !pc.Scanning? && !pc.Recording?
  {
    hide ChunkAt;
  }

  /** After the end of a chunk's records exactly the later words of the slice await a verify read. */
  lemma {:induction false} LiveAfterErrors(job: Job, wk: Worker, p: nat, done: nat, w: nat)
    requires p < |job.phases| && ChunkAt(job, done) && job.Owns(w)
    ensures var b, pc := job.start + done + NextChunk(job.count, done), EndErrors(job, wk, p, done).pc;
      && (Live(job, pc, w) <==> w >= b) && (w >= b ==> PhaseAt(pc) == p) && !pc.Scanning? && !pc.Recording?
  {
    hide ChunkAt, EndVerify;
    LiveAfterVerify(job, wk, p, done, w);
  }

  lemma {:induction false} LiveAfterWrite(job: Job, wk: Worker, p: nat, done: nat, w: nat)
    requires p < |job.phases| && ChunkAt(job, done) && job.Owns(w)
    ensures var b, pc := job.start + done + NextChunk(job.count, done), EndWrite(job, wk, p, done).pc;
      (Live(job, pc, w) <==> w < b) && PhaseAt(pc) == p && !pc.Scanning? && !pc.Recording?
  {
    hide ChunkAt;
  }

  lemma {:induction false} LiveAfterStores(job: Job, wk: Worker, p: nat, done: nat, w: nat)
    requires p < |job.phases| && ChunkAt(job, done) && job.Owns(w)
    ensures var b, pc := job.start + done + NextChunk(job.count, done), EndStores(job, wk, p, done).pc;
      (Live(job, pc, w) <==> w < b) && PhaseAt(pc) == p && !pc.Scanning? && !pc.Recording?
  {
    hide ChunkAt, EndWrite;
    LiveAfterWrite(job, wk, p, done, w);
  }

  /** Steps that read nothing for verification keep every word's window, except that a store opens one. */
  lemma {:induction false} OtherLive(job: Job, fab: Fabric, cells: seq<Word>, wk: Worker, w: nat)
    requires job.Valid(fab) && |cells| == fab.cellCount && Running(wk.pc) && Fits(job, wk.pc) && job.Owns(w)
    requires !wk.pc.Scanning? && !wk.pc.Recording?
    ensures var next := StepWorker(job, fab, cells, wk);
      && next.log == wk.log && Unnoticed(job, next.pc)
      && (Live(job, next.pc, w) <==> Live(job, wk.pc, w) || (wk.pc.Storing? && w == WordAt(job, wk.pc)))
      && (Live(job, next.pc, w) ==> PhaseAt(next.pc) == PhaseAt(wk.pc))
      && (next.pc.Recording? ==> job.phases[next.pc.p].Walking?)
  {
    hide Load, Pressed, EndStores, EndWrite, EndVerify;
    match wk.pc
    case Storing(p, done, _) =>
      LiveAfterStores(job, wk, p, done, w);
      EndKeepsLog(job, wk, p, done);
    case Folding(p, done, k) =>
      var pressed := wk.(pressure := Pressed(job, fab, cells, wk.pressure, job.start + done + k));
      LiveAfterWrite(job, pressed, p, done, w);
      EndKeepsLog(job, pressed, p, done);
    case Refolding(p, done, k) =>
      var pressed := wk.(pressure := Pressed(job, fab, cells, wk.pressure, job.start + done + k));
      LiveAfterVerify(job, pressed, p, done, w);
      EndKeepsLog(job, pressed, p, done);
    case _ =>
  }

  lemma {:induction false} SpentStep(job: Job, fab: Fabric, cells: seq<Word>, drift: seq<Word>, wk: Worker, w: nat,
      mask: Word, log: seq<ErrorRecord>)
    requires job.Valid(fab) && fab.NoStuckBits() && !job.cfg.inject
    requires |cells| == fab.cellCount && |drift| == |fab.wires| && OnlyAt(drift, w, mask) && job.Owns(w)
    requires Running(wk.pc) && Fits(job, wk.pc) && HoldsAll(job, fab, cells, drift, wk.pc)
    requires Spent(job, wk, drift, w, log)
    ensures Spent(job, StepWorker(job, fab, cells, wk), DriftAfter(job, fab, drift, wk.pc), w, log)
  {
    hide Load, ErrorAt, HoldsAll, EndErrors, Xor;
    if wk.pc.Scanning? {
      VerifyReads(job, fab, cells, drift, wk.pc, w, mask);
      LiveAfterErrors(job, wk, wk.pc.p, wk.pc.done, w);
      EndKeepsLog(job, wk, wk.pc.p, wk.pc.done);
    } else if wk.pc.Recording? {
      VerifyReads(job, fab, cells, drift, wk.pc, w, mask);
      assert wk.log + [] == wk.log;
      LiveAfterErrors(job, wk, wk.pc.p, wk.pc.done, w);
      EndKeepsLog(job, wk, wk.pc.p, wk.pc.done);
    } else {
      hide StepWorker;
      OtherLive(job, fab, cells, wk, w);
      StoreSettles(job, fab, drift, wk.pc, w);
    }
  }

  lemma {:induction false} StoreSettles(job: Job, fab: Fabric, drift: seq<Word>, pc: Pc, w: nat)
    requires job.Valid(fab) && Fits(job, pc) && |drift| == |fab.wires| && !job.cfg.inject && w < |drift|
    ensures DriftAfter(job, fab, drift, pc)[w] == if pc.Storing? && w == WordAt(job, pc) then 0 else drift[w]
  {}

  lemma {:induction false} ArmedStep(job: Job, fab: Fabric, cells: seq<Word>, drift: seq<Word>, wk: Worker, w: nat,
      mask: Word, p: nat)
    requires job.Valid(fab) && fab.NoStuckBits() && !job.cfg.inject && p < |job.phases|
    requires |cells| == fab.cellCount && |drift| == |fab.wires| && OnlyAt(drift, w, mask) && job.Owns(w) && mask != 0
    requires Running(wk.pc) && Fits(job, wk.pc) && HoldsAll(job, fab, cells, drift, wk.pc)
    requires Armed(job, wk, drift, w, mask, p)
    ensures var wk', drift' := StepWorker(job, fab, cells, wk), DriftAfter(job, fab, drift, wk.pc);
      || Armed(job, wk', drift', w, mask, p) || Caught(job, wk', drift', w, mask, p)
      || Spent(job, wk', drift', w, [UpsetError(job, p, w, mask)])
  {
    hide Load, ErrorAt, HoldsAll, EndErrors, Xor;
    StoreSettles(job, fab, drift, wk.pc, w);
    if wk.pc.Scanning? {
      ArmedScan(job, fab, cells, drift, wk, w, mask, p);
    } else if wk.pc.Recording? {
      VerifyReads(job, fab, cells, drift, wk.pc, w, mask);
      var logged := wk.(log := wk.log + ErrorAt(job, fab, cells, wk.pc.p, WordAt(job, wk.pc)));
      LiveAfterErrors(job, logged, wk.pc.p, wk.pc.done, w);
      EndKeepsLog(job, logged, wk.pc.p, wk.pc.done);
    } else {
      hide StepWorker;
      OtherLive(job, fab, cells, wk, w);
    }
  }

  lemma {:induction false} ArmedScan(job: Job, fab: Fabric, cells: seq<Word>, drift: seq<Word>, wk: Worker, w: nat,
      mask: Word, p: nat)
    requires job.Valid(fab) && fab.NoStuckBits() && !job.cfg.inject && p < |job.phases|
    requires |cells| == fab.cellCount && |drift| == |fab.wires| && OnlyAt(drift, w, mask) && job.Owns(w) && mask != 0
    requires wk.pc.Scanning? && Fits(job, wk.pc) && HoldsAll(job, fab, cells, drift, wk.pc)
    requires Armed(job, wk, drift, w, mask, p)
    ensures var wk' := StepWorker(job, fab, cells, wk);
      || Armed(job, wk', drift, w, mask, p) || Caught(job, wk', drift, w, mask, p)
      || Spent(job, wk', drift, w, [UpsetError(job, p, w, mask)])
  {
    hide Load, ErrorAt, HoldsAll, EndErrors, Xor, WriteStep;
    VerifyReads(job, fab, cells, drift, wk.pc, w, mask);
    LiveAfterErrors(job, wk, wk.pc.p, wk.pc.done, w);
    EndKeepsLog(job, wk, wk.pc.p, wk.pc.done);
  }

  lemma {:induction false} CaughtStep(job: Job, fab: Fabric, cells: seq<Word>, drift: seq<Word>, wk: Worker, w: nat,
      mask: Word, p: nat)
    requires job.Valid(fab) && fab.NoStuckBits() && !job.cfg.inject && p < |job.phases|
    requires |cells| == fab.cellCount && |drift| == |fab.wires| && OnlyAt(drift, w, mask) && job.Owns(w) && mask != 0
    requires Running(wk.pc) && Fits(job, wk.pc) && HoldsAll(job, fab, cells, drift, wk.pc)
    requires Caught(job, wk, drift, w, mask, p)
    ensures var wk', drift' := StepWorker(job, fab, cells, wk), DriftAfter(job, fab, drift, wk.pc);
      Caught(job, wk', drift', w, mask, p) || Spent(job, wk', drift', w, [UpsetError(job, p, w, mask)])
  {
    hide Load, ErrorAt, HoldsAll, EndErrors, Xor;
    VerifyReads(job, fab, cells, drift, wk.pc, w, mask);
    if wk.pc.Recording? {
      var logged := wk.(log := wk.log + ErrorAt(job, fab, cells, wk.pc.p, WordAt(job, wk.pc)));
      LiveAfterErrors(job, logged, wk.pc.p, wk.pc.done, w);
      EndKeepsLog(job, logged, wk.pc.p, wk.pc.done);
    }
  }

  lemma {:induction false} BystanderStep(job: Job, fab: Fabric, cells: seq<Word>, drift: seq<Word>, wk: Worker,
      w: nat, mask: Word)
    requires job.Valid(fab) && fab.NoStuckBits() && !job.cfg.inject
    requires |cells| == fab.cellCount && |drift| == |fab.wires| && OnlyAt(drift, w, mask) && !job.Owns(w)
    requires Running(wk.pc) && Fits(job, wk.pc) && HoldsAll(job, fab, cells, drift, wk.pc)
    requires wk.log == [] && Unnoticed(job, wk.pc)
    ensures var wk' := StepWorker(job, fab, cells, wk); wk'.log == [] && Unnoticed(job, wk'.pc)
  {
    hide Load, ErrorAt, HoldsAll, Pressed, EndStores, EndWrite, EndErrors, EndVerify;
    if wk.pc.Scanning? || wk.pc.Recording? {
      VerifyReads(job, fab, cells, drift, wk.pc, w, mask);
      assert wk.log + [] == wk.log;
    }
    if !Polls(wk.pc) && !wk.pc.Injecting? {
      var p, done := wk.pc.p, wk.pc.done;
      EndQuiet(job, wk, p, done);
      EndQuiet(job, wk.(pressure := Pressed(job, fab, cells, wk.pressure, WordAt(job, wk.pc))), p, done);
    }
  }

  lemma {:induction false} EndQuiet(job: Job, wk: Worker, p: nat, done: nat)
    requires p < |job.phases| && ChunkAt(job, done)
    ensures EndErrors(job, wk, p, done).log == EndVerify(job, wk, p, done).log == wk.log
    ensures EndStores(job, wk, p, done).log == EndWrite(job, wk, p, done).log == wk.log
    ensures !EndErrors(job, wk, p, done).pc.Scanning? && !EndErrors(job, wk, p, done).pc.Recording?
    ensures !EndVerify(job, wk, p, done).pc.Scanning? && !EndVerify(job, wk, p, done).pc.Recording?
    ensures !EndStores(job, wk, p, done).pc.Scanning? && !EndStores(job, wk, p, done).pc.Recording?
    ensures !EndWrite(job, wk, p, done).pc.Scanning? && !EndWrite(job, wk, p, done).pc.Recording?
  {
    hide ChunkAt;
    EndKeepsLog(job, wk, p, done);
  }

  lemma {:induction false} OnlyAtStays(job: Job, fab: Fabric, drift: seq<Word>, pc: Pc, w: nat, mask: Word)
    requires job.Valid(fab) && Fits(job, pc) && |drift| == |fab.wires| && !job.cfg.inject && OnlyAt(drift, w, mask)
    ensures OnlyAt(DriftAfter(job, fab, drift, pc), w, mask)
  {}

  // ----- the checksum

  /** Word w was folded in the write half of the present phase and not yet in its verify half. */
  predicate BetweenFolds(job: Job, pc: Pc, w: nat)
    requires Fits(job, pc) && job.Owns(w)
  {
    var at := LastRunning(job, pc);
    !at.AtPhase? && !at.Finished? && RefoldedWords(job, at) <= w - job.start < FoldedWords(job, at)
  }

  /** Both folds of phase q have read word w. */
  predicate Closed(job: Job, pc: Pc, q: nat, w: nat)
    requires Fits(job, pc) && job.Owns(w)
  {
    var at := LastRunning(job, pc);
    if at.Finished? then q < |job.phases|
    else q < at.p || (q == at.p && !at.AtPhase? && w - job.start < RefoldedWords(job, at))
  }

  predicate FoldPair(seen: map<Mark, Word>, q: nat, w: nat, mask: Word, x: Option<nat>) {
    if x == Some(q) then At(seen, FoldRead, q, w) == 0 && At(seen, RefoldRead, q, w) == mask
    else At(seen, FoldRead, q, w) == At(seen, RefoldRead, q, w)
  }

  /** The folds of word w saw the same drift, except those of phase x, if any, between which the upset struck. */
  ghost predicate FoldsAt(job: Job, seen: map<Mark, Word>, pc: Pc, w: nat, mask: Word, x: Option<nat>)
    requires Fits(job, pc) && job.Owns(w)
  {
    && (forall q: nat :: Closed(job, pc, q, w) ==> FoldPair(seen, q, w, mask, x))
    && (x.Some? ==> Closed(job, pc, x.value, w))
  }

  /** The upset struck between the folds of phase p and the second is still to come. */
  ghost predicate Pending(job: Job, seen: map<Mark, Word>, drift: seq<Word>, pc: Pc, w: nat, mask: Word, p: nat)
    requires Fits(job, pc) && job.Owns(w) && w < |drift|
  {
    && BetweenFolds(job, pc, w) && PhaseAt(pc) == p && At(seen, FoldRead, p, w) == 0 && drift[w] == mask
    && FoldsAt(job, seen, pc, w, mask, None)
  }

  /** An open fold of word w saw the drift the word still has. */
  ghost predicate Passed(job: Job, seen: map<Mark, Word>, drift: seq<Word>, pc: Pc, w: nat, mask: Word, x: Option<nat>)
    requires Fits(job, pc) && job.Owns(w) && w < |drift|
  {
    && FoldsAt(job, seen, pc, w, mask, x)
    && (BetweenFolds(job, pc, w) ==> At(seen, FoldRead, PhaseAt(pc), w) == drift[w])
  }

  /** No other word of the slice was folded with any drift. */
  ghost predicate OthersUnseen(job: Job, seen: map<Mark, Word>, w: nat) {
    forall q: nat, v: nat :: job.Owns(v) && v != w ==> At(seen, FoldRead, q, v) == 0 && At(seen, RefoldRead, q, v) == 0
  }

  lemma {:induction false} BetweenAfterWrite(job: Job, wk: Worker, p: nat, done: nat, w: nat, q: nat)
    requires p < |job.phases| && ChunkAt(job, done) && job.Owns(w)
    ensures var b, pc := job.start + done + NextChunk(job.count, done), EndWrite(job, wk, p, done).pc;
      (BetweenFolds(job, pc, w) <==> w < b) && PhaseAt(pc) == p && (Closed(job, pc, q, w) <==> q < p)
  {
    hide ChunkAt;
  }

  lemma {:induction false} BetweenAfterVerify(job: Job, wk: Worker, p: nat, done: nat, w: nat, q: nat)
    requires p < |job.phases| && ChunkAt(job, done) && job.Owns(w)
    ensures var b, pc := job.start + done + NextChunk(job.count, done), EndVerify(job, wk, p, done).pc;
      && (BetweenFolds(job, pc, w) <==> w >= b) && (w >= b ==> PhaseAt(pc) == p)
      && (Closed(job, pc, q, w) <==> q < p || (q == p && w < b))
  {
    hide ChunkAt, NextChunk;
  }

  /** How a step moves the window: the fold of the word opens it, the second fold closes it. */
  ghost predicate WindowMoves(job: Job, pc: Pc, pc': Pc, w: nat, q: nat)
    requires Fits(job, pc) && Fits(job, pc') && Running(pc) && job.Owns(w)
  {
    && (BetweenFolds(job, pc', w) <==>
          && (BetweenFolds(job, pc, w) || (pc.Folding? && w == WordAt(job, pc)))
          && !(pc.Refolding? && w == WordAt(job, pc)))
    && (BetweenFolds(job, pc', w) ==> PhaseAt(pc') == PhaseAt(pc))
    && (Closed(job, pc', q, w) <==> Closed(job, pc, q, w) || (pc.Refolding? && w == WordAt(job, pc) && q == pc.p))
  }

  lemma {:induction false} WriteWindow(job: Job, fab: Fabric, cells: seq<Word>, wk: Worker, w: nat, q: nat)
    requires job.Valid(fab) && |cells| == fab.cellCount && Fits(job, wk.pc) && job.Owns(w) && job.cfg.mode.Extreme?
    requires wk.pc.Storing? || wk.pc.Folding? || wk.pc.Injecting?
    ensures WindowMoves(job, wk.pc, WriteStep(job, fab, cells, wk).pc, w, q)
  {
    hide Pressed, EndWrite, ChunkAt;
    match wk.pc
    case Folding(p, done, k) =>
      BetweenAfterWrite(job, wk.(pressure := Pressed(job, fab, cells, wk.pressure, job.start + done + k)), p, done, w,
        q);
    case _ =>
  }

  lemma {:induction false} VerifyWindow(job: Job, fab: Fabric, cells: seq<Word>, wk: Worker, w: nat, q: nat)
    requires job.Valid(fab) && |cells| == fab.cellCount && Fits(job, wk.pc) && job.Owns(w) && job.cfg.mode.Extreme?
    requires wk.pc.Scanning? || wk.pc.Recording? || wk.pc.Refolding?
    ensures WindowMoves(job, wk.pc, VerifyStep(job, fab, cells, wk).pc, w, q)
  {
    hide Load, Pressed, ErrorAt, EndVerify, ChunkAt;
    match wk.pc
    case Refolding(p, done, k) =>
      BetweenAfterVerify(job, wk.(pressure := Pressed(job, fab, cells, wk.pressure, job.start + done + k)), p, done,
        w, q);
    case _ =>
  }

  lemma {:induction false} WindowStep(job: Job, fab: Fabric, cells: seq<Word>, wk: Worker, w: nat, q: nat)
    requires job.Valid(fab) && |cells| == fab.cellCount && Running(wk.pc) && Fits(job, wk.pc) && job.Owns(w)
    requires job.cfg.mode.Extreme?
    ensures WindowMoves(job, wk.pc, StepWorker(job, fab, cells, wk).pc, w, q)
  {
    hide WriteStep, VerifyStep, ChunkAt;
    if wk.pc.Storing? || wk.pc.Folding? || wk.pc.Injecting? {
      hide WindowMoves;
      WriteWindow(job, fab, cells, wk, w, q);
    } else if wk.pc.Scanning? || wk.pc.Recording? || wk.pc.Refolding? {
      hide WindowMoves;
      VerifyWindow(job, fab, cells, wk, w, q);
    }
  }

  lemma {:induction false} SeenAt(job: Job, drift: seq<Word>, seen: map<Mark, Word>, pc: Pc, access: Access, q: nat,
      v: nat)
    requires Fits(job, pc) && job.start + job.count <= |drift|
    ensures At(SeenAfter(job, drift, seen, pc), access, q, v)
         == if MarkOf(job, pc) == Some(Mark(access, q, v)) then drift[v] else At(seen, access, q, v)
  {}

  /** What one step does to the window and to the fold reads of word w. */
  ghost predicate FoldStep(job: Job, drift: seq<Word>, seen: map<Mark, Word>, seen': map<Mark, Word>, pc: Pc, pc': Pc,
      w: nat, q: nat)
    requires Fits(job, pc) && Fits(job, pc') && Running(pc) && job.Owns(w) && w < |drift|
  {
    && WindowMoves(job, pc, pc', w, q)
    && At(seen', FoldRead, q, w)
       == (if pc.Folding? && w == WordAt(job, pc) && q == pc.p then drift[w] else At(seen, FoldRead, q, w))
    && At(seen', RefoldRead, q, w)
       == (if pc.Refolding? && w == WordAt(job, pc) && q == pc.p then drift[w] else At(seen, RefoldRead, q, w))
  }

  lemma {:induction false} StepFolds(job: Job, fab: Fabric, cells: seq<Word>, drift: seq<Word>, seen: map<Mark, Word>,
      wk: Worker, w: nat, q: nat)
    requires job.Valid(fab) && |cells| == fab.cellCount && |drift| == |fab.wires| && job.cfg.mode.Extreme?
    requires Running(wk.pc) && Fits(job, wk.pc) && job.Owns(w)
    ensures var seen', pc' := SeenAfter(job, drift, seen, wk.pc), StepWorker(job, fab, cells, wk).pc;
      FoldStep(job, drift, seen, seen', wk.pc, pc', w, q)
  {
    hide StepWorker, At, SeenAfter, WindowMoves;
    WindowStep(job, fab, cells, wk, w, q);
    SeenAt(job, drift, seen, wk.pc, FoldRead, q, w);
    SeenAt(job, drift, seen, wk.pc, RefoldRead, q, w);
  }

  lemma {:induction false} FoldPairStays(job: Job, drift: seq<Word>, seen: map<Mark, Word>, seen': map<Mark, Word>,
      pc: Pc, pc': Pc, w: nat, mask: Word, x: Option<nat>, q: nat)
    requires Fits(job, pc) && Fits(job, pc') && Running(pc) && job.Owns(w) && w < |drift|
    requires FoldStep(job, drift, seen, seen', pc, pc', w, q)
    requires Closed(job, pc, q, w) ==> FoldPair(seen, q, w, mask, x)
    requires x == Some(q) ==> Closed(job, pc, q, w)
    requires BetweenFolds(job, pc, w) ==> At(seen, FoldRead, PhaseAt(pc), w) == drift[w]
    ensures Closed(job, pc', q, w) ==> FoldPair(seen', q, w, mask, x)
    ensures Closed(job, pc, q, w) ==> Closed(job, pc', q, w)
  {
    hide BetweenFolds, Closed, At;
    WindowFacts(job, pc, w);
  }

  lemma {:induction false} FoldsStayAt(job: Job, drift: seq<Word>, seen: map<Mark, Word>, seen': map<Mark, Word>,
      pc: Pc, pc': Pc, w: nat, mask: Word, x: Option<nat>)
    requires Fits(job, pc) && Fits(job, pc') && Running(pc) && job.Owns(w) && w < |drift|
    requires forall q: nat :: FoldStep(job, drift, seen, seen', pc, pc', w, q)
    requires Passed(job, seen, drift, pc, w, mask, x)
    ensures FoldsAt(job, seen', pc', w, mask, x)
  {
    hide BetweenFolds, Closed, At, FoldStep, FoldPair;
    forall q: nat
      ensures Closed(job, pc', q, w) ==> FoldPair(seen', q, w, mask, x)
      ensures Closed(job, pc, q, w) ==> Closed(job, pc', q, w)
    {
      FoldPairStays(job, drift, seen, seen', pc, pc', w, mask, x, q);
    }
  }

  lemma {:induction false} PassedStep(job: Job, fab: Fabric, cells: seq<Word>, drift: seq<Word>, seen: map<Mark, Word>,
      wk: Worker, w: nat, mask: Word, x: Option<nat>)
    requires job.Valid(fab) && |cells| == fab.cellCount && |drift| == |fab.wires| && !job.cfg.inject
    requires job.cfg.mode.Extreme?
    requires Running(wk.pc) && Fits(job, wk.pc) && job.Owns(w) && Passed(job, seen, drift, wk.pc, w, mask, x)
    ensures Passed(job, SeenAfter(job, drift, seen, wk.pc), DriftAfter(job, fab, drift, wk.pc),
                   StepWorker(job, fab, cells, wk).pc, w, mask, x)
  {
    hide BetweenFolds, Closed, StepWorker, At, SeenAfter, DriftAfter, FoldStep, FoldsAt;
    var seen', pc' := SeenAfter(job, drift, seen, wk.pc), StepWorker(job, fab, cells, wk).pc;
    forall q: nat
      ensures FoldStep(job, drift, seen, seen', wk.pc, pc', w, q)
    {
      StepFolds(job, fab, cells, drift, seen, wk, w, q);
    }
    FoldsStayAt(job, drift, seen, seen', wk.pc, pc', w, mask, x);
    StoreSettles(job, fab, drift, wk.pc, w);
    WindowFacts(job, wk.pc, w);
    OpenFold(job, drift, seen, seen', wk.pc, pc', w);
  }

  lemma {:induction false} OpenFold(job: Job, drift: seq<Word>, seen: map<Mark, Word>, seen': map<Mark, Word>, pc: Pc,
      pc': Pc, w: nat)
    requires Fits(job, pc) && Fits(job, pc') && Running(pc) && job.Owns(w) && w < |drift|
    requires FoldStep(job, drift, seen, seen', pc, pc', w, PhaseAt(pc))
    requires BetweenFolds(job, pc, w) ==> At(seen, FoldRead, PhaseAt(pc), w) == drift[w]
    ensures BetweenFolds(job, pc', w) ==> At(seen', FoldRead, PhaseAt(pc'), w) == drift[w]
    ensures BetweenFolds(job, pc', w) ==> !(pc.Storing? && w == WordAt(job, pc))
  {
    hide BetweenFolds, Closed, At;
    WindowFacts(job, pc, w);
  }

  /** The word a fold reads is not closed yet, and the word a second fold reads is between its folds. */
  lemma {:induction false} WindowFacts(job: Job, pc: Pc, w: nat)
    requires Fits(job, pc) && Running(pc) && job.Owns(w)
    ensures pc.Folding? && w == WordAt(job, pc) ==> !Closed(job, pc, pc.p, w)
    ensures pc.Refolding? && w == WordAt(job, pc) ==> BetweenFolds(job, pc, w) && !Closed(job, pc, pc.p, w)
    ensures pc.Storing? && w == WordAt(job, pc) ==> !BetweenFolds(job, pc, w)
    ensures BetweenFolds(job, pc, w) ==> !Closed(job, pc, pc.p, w) && !(pc.Folding? && w == WordAt(job, pc))
    ensures PhaseAt(pc) == pc.p
  {}

  lemma {:induction false} PendingStep(job: Job, fab: Fabric, cells: seq<Word>, drift: seq<Word>, seen: map<Mark, Word>,
      wk: Worker, w: nat, mask: Word, p: nat)
    requires job.Valid(fab) && |cells| == fab.cellCount && |drift| == |fab.wires| && !job.cfg.inject
    requires job.cfg.mode.Extreme?
    requires Running(wk.pc) && Fits(job, wk.pc) && job.Owns(w) && Pending(job, seen, drift, wk.pc, w, mask, p)
    ensures var seen', drift', pc' :=
        SeenAfter(job, drift, seen, wk.pc), DriftAfter(job, fab, drift, wk.pc), StepWorker(job, fab, cells, wk).pc;
      Pending(job, seen', drift', pc', w, mask, p) || Passed(job, seen', drift', pc', w, mask, Some(p))
  {
    hide BetweenFolds, Closed, StepWorker, At, SeenAfter, DriftAfter;
    var seen', pc' := SeenAfter(job, drift, seen, wk.pc), StepWorker(job, fab, cells, wk).pc;
    StoreSettles(job, fab, drift, wk.pc, w);
    WindowFacts(job, wk.pc, w);
    StepFolds(job, fab, cells, drift, seen, wk, w, p);
    forall q: nat | Closed(job, pc', q, w)
      ensures Closed(job, wk.pc, q, w) || (q == p && wk.pc.Refolding? && w == WordAt(job, wk.pc))
      ensures q != p ==> At(seen', FoldRead, q, w) == At(seen', RefoldRead, q, w)
    {
      StepFolds(job, fab, cells, drift, seen, wk, w, q);
      assert Closed(job, wk.pc, q, w) ==> FoldPair(seen, q, w, mask, None);
    }
  }

  lemma {:induction false} OthersStayUnseen(job: Job, drift: seq<Word>, seen: map<Mark, Word>, pc: Pc, w: nat,
      mask: Word, other: Job)
    requires Fits(job, pc) && job.start + job.count <= |drift| && OnlyAt(drift, w, mask) && OthersUnseen(other, seen, w)
    ensures OthersUnseen(other, SeenAfter(job, drift, seen, pc), w)
  {
    hide At, SeenAfter;
    forall q: nat, v: nat | other.Owns(v) && v != w
      ensures At(SeenAfter(job, drift, seen, pc), FoldRead, q, v) == 0
      ensures At(SeenAfter(job, drift, seen, pc), RefoldRead, q, v) == 0
    {
      SeenAt(job, drift, seen, pc, FoldRead, q, v);
      SeenAt(job, drift, seen, pc, RefoldRead, q, v);
    }
  }

  // ----- whole runs

  /** A run with exactly one upset. */
  function OneUpset(pre: seq<Event>, w: nat, mask: Word, post: seq<Event>): seq<Event> {
    pre + [Upset(w, mask)] + post
  }

  lemma {:induction false} UnsnocOneUpset(pre: seq<Event>, w: nat, mask: Word, post: seq<Event>)
    ensures var evs := OneUpset(pre, w, mask, post);
      evs != [] &&
      if post == [] then evs[..|evs| - 1] == pre && evs[|evs| - 1] == Upset(w, mask)
      else evs[..|evs| - 1] == OneUpset(pre, w, mask, post[..|post| - 1]) && evs[|evs| - 1] == post[|post| - 1]
  {}

  /** What holds of a worker's log after one upset, when it stood at pc when the upset struck. */
  ghost predicate LogAfter(job: Job, wk: Worker, drift: seq<Word>, w: nat, mask: Word, pc: Pc)
    requires w < |drift| && |job.phases| == |job.patterns| && Fits(job, pc) && Fits(job, wk.pc)
  {
    if job.Owns(w) && Live(job, pc, w) then
      LivePhase(job, pc, w);
      var p := PhaseAt(pc);
      || Armed(job, wk, drift, w, mask, p) || Caught(job, wk, drift, w, mask, p)
      || Spent(job, wk, drift, w, [UpsetError(job, p, w, mask)])
    else if job.Owns(w) then Spent(job, wk, drift, w, [])
    else wk.log == [] && Unnoticed(job, wk.pc)
  }

  /** And of its fold reads. */
  ghost predicate FoldsAfter(job: Job, seen: map<Mark, Word>, drift: seq<Word>, at: Pc, w: nat, mask: Word, pc: Pc)
    requires w < |drift| && Fits(job, pc) && Fits(job, at)
  {
    && OthersUnseen(job, seen, w)
    && (job.Owns(w) ==>
          if BetweenFolds(job, pc, w) then
            || Pending(job, seen, drift, at, w, mask, PhaseAt(pc))
            || Passed(job, seen, drift, at, w, mask, Some(PhaseAt(pc)))
          else Passed(job, seen, drift, at, w, mask, None))
  }

  lemma {:induction false} LogAfterStep(job: Job, fab: Fabric, cells: seq<Word>, drift: seq<Word>, wk: Worker,
      stop: bool, w: nat, mask: Word, pc: Pc)
    requires job.Valid(fab) && fab.NoStuckBits() && !job.cfg.inject
    requires |cells| == fab.cellCount && |drift| == |fab.wires| && OnlyAt(drift, w, mask) && mask != 0
    requires Running(wk.pc) && Fits(job, wk.pc) && Fits(job, pc) && HoldsAll(job, fab, cells, drift, wk.pc)
    requires LogAfter(job, wk, drift, w, mask, pc)
    ensures LogAfter(job, Step(job, fab, cells, wk, stop).1, DriftAfter(job, fab, drift, wk.pc), w, mask, pc)
  {
    hide HoldsAll, StepWorker, StepCells, DriftAfter, Armed, Caught, Spent, Xor;
    if stop && Polls(wk.pc) {
      LogAfterStop(job, wk, drift, w, mask, pc);
      DriftOf(job, fab, drift, wk.pc);
    } else if job.Owns(w) && Live(job, pc, w) {
      LivePhase(job, pc, w);
      var p := PhaseAt(pc);
      if Armed(job, wk, drift, w, mask, p) {
        ArmedStep(job, fab, cells, drift, wk, w, mask, p);
      } else if Caught(job, wk, drift, w, mask, p) {
        CaughtStep(job, fab, cells, drift, wk, w, mask, p);
      } else {
        SpentStep(job, fab, cells, drift, wk, w, mask, [UpsetError(job, p, w, mask)]);
      }
    } else if job.Owns(w) {
      SpentStep(job, fab, cells, drift, wk, w, mask, []);
    } else {
      BystanderStep(job, fab, cells, drift, wk, w, mask);
    }
  }

  lemma {:induction false} LogAfterStop(job: Job, wk: Worker, drift: seq<Word>, w: nat, mask: Word, pc: Pc)
    requires w < |drift| && |job.phases| == |job.patterns| && Fits(job, pc) && Fits(job, wk.pc) && Polls(wk.pc)
    requires LogAfter(job, wk, drift, w, mask, pc)
    ensures LogAfter(job, wk.(pc := Stopped(wk.pc)), drift, w, mask, pc)
  {}

  lemma {:induction false} FoldsAfterStep(job: Job, fab: Fabric, cells: seq<Word>, drift: seq<Word>,
      seen: map<Mark, Word>, wk: Worker, stop: bool, w: nat, mask: Word, pc: Pc)
    requires job.Valid(fab) && |cells| == fab.cellCount && |drift| == |fab.wires| && !job.cfg.inject
    requires job.cfg.mode.Extreme?
    requires OnlyAt(drift, w, mask) && Running(wk.pc) && Fits(job, wk.pc) && Fits(job, pc)
    requires FoldsAfter(job, seen, drift, wk.pc, w, mask, pc)
    ensures FoldsAfter(job, SeenAfter(job, drift, seen, wk.pc), DriftAfter(job, fab, drift, wk.pc),
                       Step(job, fab, cells, wk, stop).1.pc, w, mask, pc)
  {
    hide StepWorker, StepCells, DriftAfter, SeenAfter, Pending, Passed, OthersUnseen, BetweenFolds;
    OthersStayUnseen(job, drift, seen, wk.pc, w, mask, job);
    if stop && Polls(wk.pc) {
      FoldsAfterStop(job, seen, drift, wk.pc, w, mask, pc);
      DriftOf(job, fab, drift, wk.pc);
      NothingReadAt(job, drift, seen, wk.pc);
    } else if job.Owns(w) && BetweenFolds(job, pc, w) {
      if Pending(job, seen, drift, wk.pc, w, mask, PhaseAt(pc)) {
        PendingStep(job, fab, cells, drift, seen, wk, w, mask, PhaseAt(pc));
      } else {
        PassedStep(job, fab, cells, drift, seen, wk, w, mask, Some(PhaseAt(pc)));
      }
    } else if job.Owns(w) {
      PassedStep(job, fab, cells, drift, seen, wk, w, mask, None);
    }
  }

  lemma {:induction false} NothingReadAt(job: Job, drift: seq<Word>, seen: map<Mark, Word>, pc: Pc)
    requires Fits(job, pc) && Polls(pc) && job.start + job.count <= |drift|
    ensures SeenAfter(job, drift, seen, pc) == seen
  {}

  lemma {:induction false} FoldsAfterStop(job: Job, seen: map<Mark, Word>, drift: seq<Word>, at: Pc, w: nat,
      mask: Word, pc: Pc)
    requires w < |drift| && Fits(job, pc) && Fits(job, at) && Polls(at) && FoldsAfter(job, seen, drift, at, w, mask, pc)
    ensures FoldsAfter(job, seen, drift, Stopped(at), w, mask, pc)
  {
    hide At, FoldPair, FoldedWords, RefoldedWords;
    if job.Owns(w) {
      assert BetweenFolds(job, Stopped(at), w) == BetweenFolds(job, at, w);
      forall q: nat
        ensures Closed(job, Stopped(at), q, w) == Closed(job, at, q, w)
      {}
    }
  }

  /** Another worker's step. */
  lemma {:induction false} LogFrame(job: Job, other: Job, fab: Fabric, drift: seq<Word>, wk: Worker, at: Pc, w: nat,
      mask: Word, pc: Pc)
    requires job.Valid(fab) && other.Valid(fab) && |drift| == |fab.wires| && w < |drift|
    requires Fits(other, at) && Fits(job, pc) && Fits(job, wk.pc) && !(job.Owns(w) && other.Owns(w))
    requires LogAfter(job, wk, drift, w, mask, pc)
    ensures LogAfter(job, wk, DriftAfter(other, fab, drift, at), w, mask, pc)
  {
    hide DriftAfter, Live, Unnoticed;
    if job.Owns(w) {
      DriftFrame(other, fab, drift, at, w);
    }
  }

  lemma {:induction false} FoldsFrame(job: Job, other: Job, fab: Fabric, drift: seq<Word>, seen: map<Mark, Word>,
      wk: Pc, at: Pc, w: nat, mask: Word, pc: Pc)
    requires job.Valid(fab) && other.Valid(fab) && |drift| == |fab.wires| && w < |drift|
    requires Fits(other, at) && Fits(job, pc) && Fits(job, wk)
    requires forall v: nat :: !(job.Owns(v) && other.Owns(v))
    requires FoldsAfter(job, seen, drift, wk, w, mask, pc)
    ensures FoldsAfter(job, SeenAfter(other, drift, seen, at), DriftAfter(other, fab, drift, at), wk, w, mask, pc)
  {
    hide DriftAfter, SeenAfter, At, BetweenFolds, Closed, OthersUnseen, Pending, Passed;
    var seen', drift' := SeenAfter(other, drift, seen, at), DriftAfter(other, fab, drift, at);
    forall q: nat, v: nat | job.Owns(v)
      ensures SameFolds(seen, seen', q, v)
    {
      ReadsOwnWords(other, at);
      SeenAt(other, drift, seen, at, FoldRead, q, v);
      SeenAt(other, drift, seen, at, RefoldRead, q, v);
    }
    OthersFrame(job, seen, seen', w);
    if job.Owns(w) {
      DriftFrame(other, fab, drift, at, w);
      var x := if BetweenFolds(job, pc, w) then Some(PhaseAt(pc)) else None;
      WindowFrame(job, seen, seen', drift, drift', wk, w, mask, x);
      WindowFrame(job, seen, seen', drift, drift', wk, w, mask, None);
    }
  }

  lemma {:induction false} OthersFrame(job: Job, seen: map<Mark, Word>, seen': map<Mark, Word>, w: nat)
    requires forall q: nat, v: nat :: job.Owns(v) ==> SameFolds(seen, seen', q, v)
    requires OthersUnseen(job, seen, w)
    ensures OthersUnseen(job, seen', w)
  {
    hide At;
    forall q: nat, v: nat | job.Owns(v) && v != w
      ensures At(seen', FoldRead, q, v) == 0 && At(seen', RefoldRead, q, v) == 0
    {
      assert SameFolds(seen, seen', q, v);
    }
  }

  lemma {:induction false} FoldsAtFrame(job: Job, seen: map<Mark, Word>, seen': map<Mark, Word>, at: Pc, w: nat,
      mask: Word, x: Option<nat>)
    requires Fits(job, at) && job.Owns(w) && FoldsAt(job, seen, at, w, mask, x)
    requires forall q: nat :: SameFolds(seen, seen', q, w)
    ensures FoldsAt(job, seen', at, w, mask, x)
  {
    hide At, Closed;
    forall q: nat | Closed(job, at, q, w)
      ensures FoldPair(seen', q, w, mask, x)
    {
      assert SameFolds(seen, seen', q, w) && FoldPair(seen, q, w, mask, x);
    }
  }

  lemma {:induction false} WindowFrame(job: Job, seen: map<Mark, Word>, seen': map<Mark, Word>, drift: seq<Word>,
      drift': seq<Word>, at: Pc, w: nat, mask: Word, x: Option<nat>)
    requires Fits(job, at) && job.Owns(w) && w < |drift| == |drift'| && drift'[w] == drift[w]
    requires forall q: nat, v: nat :: job.Owns(v) ==> SameFolds(seen, seen', q, v)
    ensures Passed(job, seen, drift, at, w, mask, x) ==> Passed(job, seen', drift', at, w, mask, x)
    ensures x.Some? && Pending(job, seen, drift, at, w, mask, x.value) ==>
      Pending(job, seen', drift', at, w, mask, x.value)
  {
    hide At, BetweenFolds, FoldsAt;
    assert SameFolds(seen, seen', PhaseAt(at), w);
    if FoldsAt(job, seen, at, w, mask, x) {
      FoldsAtFrame(job, seen, seen', at, w, mask, x);
    }
    if FoldsAt(job, seen, at, w, mask, None) {
      FoldsAtFrame(job, seen, seen', at, w, mask, None);
    }
  }

  lemma {:induction false} ReadsOwnWords(job: Job, pc: Pc)
    requires Fits(job, pc)
    ensures MarkOf(job, pc).Some? ==> job.Owns(MarkOf(job, pc).value.w)
  {}

  lemma {:induction false} CleanUnnoticed(job: Job, fab: Fabric, seen: map<Mark, Word>, pc: Pc, log: seq<ErrorRecord>)
    requires job.Valid(fab) && fab.NoStuckBits() && !job.cfg.inject && Fits(job, pc)
    requires Explains(job, fab, seen, pc, log) && NothingSeen(seen)
    ensures Unnoticed(job, pc)
  {
    hide Reading, NothingSeen, At, PassFindings, PhaseFindings, WalkFindings, Xor;
    forall p: nat, w: nat | p < |job.phases| && job.Owns(w)
      ensures !Suspect(job, fab, seen, p, w)
    {
      UnseenAt(seen, ScanRead, p, w);
      IntactReading(job, fab, p, w, 0);
      XorUnit(job.patterns[p](w));
    }
  }

  /** The moment of the upset itself. */
  lemma {:induction false} AfterBegins(job: Job, fab: Fabric, wk: Worker, drift: seq<Word>, seen: map<Mark, Word>,
      w: nat, mask: Word)
    requires job.Valid(fab) && Fits(job, wk.pc) && wk.log == [] && Unnoticed(job, wk.pc) && |drift| == |fab.wires|
    requires w < |drift| && NoDrift(drift) && NothingSeen(seen)
    ensures var drift' := drift[w := Xor(drift[w], mask)];
      && OnlyAt(drift', w, mask) && LogAfter(job, wk, drift', w, mask, wk.pc)
      && FoldsAfter(job, seen, drift', wk.pc, w, mask, wk.pc)
  {
    hide Xor, At, NothingSeen, BetweenFolds, Closed;
    XorCommutative(0, mask);
    XorUnit(mask);
    forall access, q: nat, v: nat
      ensures At(seen, access, q, v) == 0
    {
      UnseenAt(seen, access, q, v);
    }
    assert OthersUnseen(job, seen, w);
    if Live(job, wk.pc, w) {
      LivePhase(job, wk.pc, w);
    }
  }

  ghost predicate Undisturbed(jobs: seq<Job>, fab: Fabric)
    requires fab.Valid()
  {
    fab.NoStuckBits() && NoInjection(jobs)
  }

  /** After the upset every worker's log and fold reads are as its position at that moment makes them. */
  ghost predicate Aftermath(jobs: seq<Job>, fab: Fabric, wd: World, w: nat, mask: Word, i: nat, pc: Pc)
    requires Team(jobs, fab) && Shaped(jobs, fab, wd) && i < |jobs| && Fits(jobs[i], pc)
  {
    && OnlyAt(wd.drift, w, mask) && LogAfter(jobs[i], wd.workers[i], wd.drift, w, mask, pc)
    && (jobs[i].cfg.mode.Extreme? ==> FoldsAfter(jobs[i], wd.seen, wd.drift, wd.workers[i].pc, w, mask, pc))
  }

  lemma {:induction false} AftermathWork(jobs: seq<Job>, fab: Fabric, wd: World, w: nat, mask: Word, i: nat, pc: Pc,
      k: nat, stop: bool)
    requires Team(jobs, fab) && Shaped(jobs, fab, wd) && i < |jobs| && k < |jobs| && Fits(jobs[i], pc)
    requires Undisturbed(jobs, fab) && mask != 0 && Tracks(jobs, fab, wd) && Aftermath(jobs, fab, wd, w, mask, i, pc)
    ensures Aftermath(jobs, fab, Happen(jobs, fab, wd, Work(k, stop)), w, mask, i, pc)
  {
    hide LogAfter, FoldsAfter, OnlyAt, Step, DriftAfter, SeenAfter, HoldsAll, Xor;
    var wk := wd.workers[k];
    if Running(wk.pc) {
      OnlyAtStays(jobs[k], fab, wd.drift, wk.pc, w, mask);
      if k == i {
        assert HoldsAll(jobs[i], fab, wd.cells, wd.drift, wk.pc);
        LogAfterStep(jobs[i], fab, wd.cells, wd.drift, wk, stop, w, mask, pc);
        if jobs[i].cfg.mode.Extreme? {
          FoldsAfterStep(jobs[i], fab, wd.cells, wd.drift, wd.seen, wk, stop, w, mask, pc);
        }
      } else {
        LogFrame(jobs[i], jobs[k], fab, wd.drift, wd.workers[i], wk.pc, w, mask, pc);
        if jobs[i].cfg.mode.Extreme? {
          FoldsFrame(jobs[i], jobs[k], fab, wd.drift, wd.seen, wd.workers[i].pc, wk.pc, w, mask, pc);
        }
      }
    }
  }

  lemma {:induction false} UpsetInvariant(jobs: seq<Job>, fab: Fabric, cells: seq<Word>, pre: seq<Event>, w: nat,
      mask: Word, post: seq<Event>, i: nat)
    requires Team(jobs, fab) && |cells| == fab.cellCount && Undisturbed(jobs, fab)
    requires AllPossible(jobs, fab, pre) && AllPossible(jobs, fab, OneUpset(pre, w, mask, post))
    requires NoUpsets(pre) && NoUpsets(post) && w < |fab.wires| && mask != 0 && i < |jobs|
    ensures var wd := Exec(jobs, fab, Begin(jobs, fab, cells), OneUpset(pre, w, mask, post));
      var pc := Exec(jobs, fab, Begin(jobs, fab, cells), pre).workers[i].pc;
      Aftermath(jobs, fab, wd, w, mask, i, pc)
    decreases |post|
  {
    hide Aftermath, Step, DriftAfter, SeenAfter, NoDrift, NothingSeen, Begin, OneUpset, Explains, Xor;
    var start := Begin(jobs, fab, cells);
    UnsnocOneUpset(pre, w, mask, post);
    var before := Exec(jobs, fab, start, pre);
    var pc := before.workers[i].pc;
    if post == [] {
      NoFalseAlarms(jobs, fab, cells, pre, i);
      DriftStaysZero(jobs, fab, cells, pre);
      NothingIsSeen(jobs, fab, cells, pre);
      LogIsExplained(jobs, fab, cells, pre, i);
      CleanUnnoticed(jobs[i], fab, before.seen, pc, before.workers[i].log);
      UpsetBegins(jobs, fab, before, w, mask, i);
    } else {
      var init, ev := post[..|post| - 1], post[|post| - 1];
      var most := OneUpset(pre, w, mask, init);
      assert AllPossible(jobs, fab, most);
      UpsetInvariant(jobs, fab, cells, pre, w, mask, init, i);
      ExecTracks(jobs, fab, cells, most);
      assert ev.Work? && Possible(jobs, fab, ev);
      AftermathWork(jobs, fab, Exec(jobs, fab, start, most), w, mask, i, pc, ev.i, ev.stop);
    }
  }

  lemma {:induction false} UpsetBegins(jobs: seq<Job>, fab: Fabric, wd: World, w: nat, mask: Word, i: nat)
    requires Team(jobs, fab) && Shaped(jobs, fab, wd) && i < |jobs| && w < |fab.wires|
    requires wd.workers[i].log == [] && Unnoticed(jobs[i], wd.workers[i].pc) && NoDrift(wd.drift)
    requires NothingSeen(wd.seen)
    ensures Aftermath(jobs, fab, Happen(jobs, fab, wd, Upset(w, mask)), w, mask, i, wd.workers[i].pc)
  {
    hide LogAfter, FoldsAfter, OnlyAt, NoDrift, NothingSeen, Xor;
    AfterBegins(jobs[i], fab, wd.workers[i], wd.drift, wd.seen, w, mask);
  }

  /** Whatever else happens, a worker never logs more of the upset than that one error, stopped or still running. */
  lemma {:induction false} UpsetIsLoggedOnce(jobs: seq<Job>, fab: Fabric, cells: seq<Word>, pre: seq<Event>, w: nat,
      mask: Word, post: seq<Event>, i: nat)
    requires Team(jobs, fab) && |cells| == fab.cellCount && Undisturbed(jobs, fab)
    requires AllPossible(jobs, fab, pre) && AllPossible(jobs, fab, OneUpset(pre, w, mask, post))
    requires NoUpsets(pre) && NoUpsets(post) && w < |fab.wires| && mask != 0 && i < |jobs|
    ensures var pc := Exec(jobs, fab, Begin(jobs, fab, cells), pre).workers[i].pc;
      var log := Exec(jobs, fab, Begin(jobs, fab, cells), OneUpset(pre, w, mask, post)).workers[i].log;
      log != [] ==>
        && jobs[i].Owns(w) && Live(jobs[i], pc, w) && PhaseAt(pc) < |jobs[i].phases|
        && log == [UpsetError(jobs[i], PhaseAt(pc), w, mask)]
  {
    hide Exec, Begin, OneUpset, OnlyAt, FoldsAfter, Xor;
    UpsetInvariant(jobs, fab, cells, pre, w, mask, post, i);
    var pc := Exec(jobs, fab, Begin(jobs, fab, cells), pre).workers[i].pc;
    if Live(jobs[i], pc, w) {
      LivePhase(jobs[i], pc, w);
    }
  }

  /**
   One upset anywhere, any time: a worker that finishes has logged exactly one error, naming word, phase
   and flipped bits, if its word was stored and not yet read by the first verify stage when struck (by the
   walk, in WALKING), and nothing otherwise.
   */
  lemma {:induction false} UpsetIsReported(jobs: seq<Job>, fab: Fabric, cells: seq<Word>, pre: seq<Event>, w: nat,
      mask: Word, post: seq<Event>, i: nat)
    requires Team(jobs, fab) && |cells| == fab.cellCount && Undisturbed(jobs, fab)
    requires AllPossible(jobs, fab, pre) && AllPossible(jobs, fab, OneUpset(pre, w, mask, post))
    requires NoUpsets(pre) && NoUpsets(post) && w < |fab.wires| && mask != 0 && i < |jobs|
    requires Exec(jobs, fab, Begin(jobs, fab, cells), OneUpset(pre, w, mask, post)).workers[i].pc == Finished
    ensures var pc := Exec(jobs, fab, Begin(jobs, fab, cells), pre).workers[i].pc;
      var log := Exec(jobs, fab, Begin(jobs, fab, cells), OneUpset(pre, w, mask, post)).workers[i].log;
      if jobs[i].Owns(w) && Live(jobs[i], pc, w) then
        PhaseAt(pc) < |jobs[i].phases| && log == [UpsetError(jobs[i], PhaseAt(pc), w, mask)]
      else log == []
  {
    hide Exec, Begin, OneUpset, OnlyAt, FoldsAfter, Xor;
    UpsetInvariant(jobs, fab, cells, pre, w, mask, post, i);
    var pc := Exec(jobs, fab, Begin(jobs, fab, cells), pre).workers[i].pc;
    if Live(jobs[i], pc, w) {
      LivePhase(jobs[i], pc, w);
    }
  }

  lemma {:induction false} MovedIff(job: Job, fab: Fabric, seen: map<Mark, Word>, p: nat, v: nat)
    requires job.Valid(fab) && fab.NoStuckBits() && !job.cfg.inject && p < |job.phases| && job.Owns(v)
    ensures Moved(job, fab, seen, p, v) <==> At(seen, FoldRead, p, v) != At(seen, RefoldRead, p, v)
  {
    hide Xor, At, Sense, Reading;
    var f := job.patterns[p](v);
    IntactReading(job, fab, p, v, At(seen, RefoldRead, p, v));
    SenseIntact(Xor(f, At(seen, FoldRead, p, v)));
    XorCancel(f, At(seen, FoldRead, p, v));
    XorCancel(f, At(seen, RefoldRead, p, v));
  }

  lemma {:induction false} MovesOfFinished(job: Job, fab: Fabric, seen: map<Mark, Word>, drift: seq<Word>, w: nat,
      mask: Word, pc: Pc)
    requires job.Valid(fab) && fab.NoStuckBits() && !job.cfg.inject && Fits(job, pc) && w < |drift| && mask != 0
    requires FoldsAfter(job, seen, drift, Finished, w, mask, pc)
    ensures if job.Owns(w) && BetweenFolds(job, pc, w) then OnlyMove(job, fab, seen, PhaseAt(pc), w)
            else AllAgree(job, fab, seen)
  {
    hide Moved, At, FoldedWords, RefoldedWords;
    forall p: nat, v: nat | p < |job.phases| && job.Owns(v)
      ensures Moved(job, fab, seen, p, v) <==> v == w && BetweenFolds(job, pc, w) && p == PhaseAt(pc)
    {
      MovedIff(job, fab, seen, p, v);
      if v == w {
        assert Closed(job, Finished, p, w);
      }
    }
  }

  /**
   The same upset moves the Extreme checksum of a finished worker exactly when it strikes between two fold
   reads of its word.
   */
  lemma {:induction false} UpsetMovesChecksum(jobs: seq<Job>, fab: Fabric, cells: seq<Word>, pre: seq<Event>, w: nat,
      mask: Word, post: seq<Event>, i: nat)
    requires Team(jobs, fab) && |cells| == fab.cellCount && Undisturbed(jobs, fab)
    requires AllPossible(jobs, fab, pre) && AllPossible(jobs, fab, OneUpset(pre, w, mask, post))
    requires NoUpsets(pre) && NoUpsets(post) && w < |fab.wires| && mask != 0 && i < |jobs|
    requires jobs[i].cfg.mode.Extreme? && jobs[i].press == Pressure
    requires Exec(jobs, fab, Begin(jobs, fab, cells), OneUpset(pre, w, mask, post)).workers[i].pc == Finished
    ensures var pc := Exec(jobs, fab, Begin(jobs, fab, cells), pre).workers[i].pc;
      var wk := Exec(jobs, fab, Begin(jobs, fab, cells), OneUpset(pre, w, mask, post)).workers[i];
      wk.pressure != Base(jobs[i]) <==> jobs[i].Owns(w) && BetweenFolds(jobs[i], pc, w)
  {
    hide Exec, Begin, OneUpset, OnlyAt, LogAfter, FoldsAfter, OnlyMove, AllAgree, PassSum, Base, BetweenFolds, Xor;
    var evs := OneUpset(pre, w, mask, post);
    UpsetInvariant(jobs, fab, cells, pre, w, mask, post, i);
    var wd := Exec(jobs, fab, Begin(jobs, fab, cells), evs);
    var pc := Exec(jobs, fab, Begin(jobs, fab, cells), pre).workers[i].pc;
    MovesOfFinished(jobs[i], fab, wd.seen, wd.drift, w, mask, pc);
    ChecksumOfFinishedPass(jobs, fab, cells, evs, i);
  }
}
