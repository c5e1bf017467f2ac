/**
 The runner as a state machine. One step of a worker is one poll of the stop flag or one access to a
 word of the arena: a store, a read of the first or the second verify stage, or a read of the Extreme
 fold. Workers step in any interleaving, and between any two steps a bit upset may strike a word.
 */
module Machine {
  import opened Words
  import opened Patterns
  import opened Reports
  import opened Memories
  import opened ChunkVerify

  /** Words processed between two polls of the stop flag: 1 MiB. */
  const CHUNK: nat := 131072

  const INJECTED: Word := 0x100

  /** One worker's share of a pass: its phases with their expected words, and its slice. */
  datatype Job = Job(
    cfg: Config, phases: seq<Phase>, patterns: seq<nat -> Word>, press: Word -> Word, start: nat, count: nat)
  {
    ghost predicate Valid(fab: Fabric) {
      fab.Valid() && 0 < |phases| == |patterns| <= 8 && start + count <= |fab.wires|
    }

    predicate Owns(w: nat) {
      start <= w < start + count
    }
  }

  /** Where a worker stands: its phase p, the words done before its chunk, and the k words done in it. */
  datatype Pc =
    | AtPhase(p: nat)                                    // polls before a phase
    | Writing(p: nat, done: nat)                         // polls before a chunk of the write half
    | Storing(p: nat, done: nat, k: nat)
    | Folding(p: nat, done: nat, k: nat)                 // Extreme: folds the chunk as it was written
    | Injecting(p: nat)
    | Verifying(p: nat, done: nat)                       // polls before a chunk of the verify half
    | Scanning(p: nat, done: nat, k: nat, dirty: bool)   // first stage
    | Recording(p: nat, done: nat, k: nat)               // second stage
    | Refolding(p: nat, done: nat, k: nat)               // Extreme: folds the chunk as it was verified
    | Finished
    | Stopped(at: Pc)

  predicate Running(pc: Pc) {
    !pc.Finished? && !pc.Stopped?
  }

  predicate Polls(pc: Pc) {
    pc.AtPhase? || pc.Writing? || pc.Verifying?
  }

  /** The start of a chunk. */
  predicate ChunkAt(job: Job, done: nat) {
    done < job.count && done % CHUNK == 0
  }

  function NextChunk(count: nat, done: nat): (c: nat)
    requires done < count
    ensures 0 < c <= CHUNK && done + c <= count
    ensures done + c < count ==> c == CHUNK
  {
    if done + CHUNK > count then count - done else CHUNK
  }

  predicate Within(job: Job, p: nat, done: nat, k: nat) {
    p < |job.phases| && ChunkAt(job, done) && k < NextChunk(job.count, done)
  }

  predicate Fits(job: Job, pc: Pc) {
    match pc
    case AtPhase(p) => p < |job.phases|
    case Writing(p, done) => p < |job.phases| && ChunkAt(job, done)
    case Storing(p, done, k) => Within(job, p, done, k)
    case Folding(p, done, k) => Within(job, p, done, k)
    case Injecting(p) => p < |job.phases| && job.count > 0 && job.cfg.inject
    case Verifying(p, done) => p < |job.phases| && ChunkAt(job, done)
    case Scanning(p, done, k, _) => Within(job, p, done, k) && !job.phases[p].Walking?
    case Recording(p, done, k) => Within(job, p, done, k)
    case Refolding(p, done, k) => Within(job, p, done, k)
    case Finished => true
    case Stopped(at) => Polls(at) && Fits(job, at)
  }

  /** A worker's position, its error log, and the counters it keeps. */
  datatype Worker = Worker(
    pc: Pc, log: seq<ErrorRecord>, written: nat, verified: nat, progress: nat, pressure: Word, current: Phase)

  /** The debug injection: the first word of the slice is read, one bit flipped, and stored back. */
  function Inject(fab: Fabric, cells: seq<Word>, w: nat): seq<Word>
    requires fab.Valid() && |cells| == fab.cellCount && w < |fab.wires|
  {
    cells[fab.wires[w] := Xor(Load(fab, cells, w), INJECTED)]
  }

  function AfterPhase(job: Job, p: nat): Pc {
    if p + 1 < |job.phases| then AtPhase(p + 1) else Finished
  }

  /** Entering a phase; an empty slice goes through both halves without polling. */
  function EnterPhase(job: Job, wk: Worker): (r: Worker)
    requires wk.pc.AtPhase? && Fits(job, wk.pc)
    ensures Fits(job, r.pc)
  {
    var p := wk.pc.p;
    wk.(pc := if job.count == 0 then AfterPhase(job, p) else Writing(p, 0), current := job.phases[p])
  }

  /** A chunk of the write half is done. */
  function EndWrite(job: Job, wk: Worker, p: nat, done: nat): (r: Worker)
    requires p < |job.phases| && ChunkAt(job, done)
    ensures Fits(job, r.pc)
  {
    var c := NextChunk(job.count, done);
    var after := wk.(progress := wk.progress + 8 * c);
    if done + c < job.count then after.(pc := Writing(p, done + c))
    else if job.cfg.inject then after.(pc := Injecting(p))
    else after.(pc := Verifying(p, 0), written := wk.written + 8 * job.count)
  }

  /** The stores of a chunk are done. */
  function EndStores(job: Job, wk: Worker, p: nat, done: nat): (r: Worker)
    requires p < |job.phases| && ChunkAt(job, done)
    ensures Fits(job, r.pc)
  {
    if job.cfg.mode.Extreme? then wk.(pc := Folding(p, done, 0)) else EndWrite(job, wk, p, done)
  }

  /** A chunk of the verify half is done. */
  function EndVerify(job: Job, wk: Worker, p: nat, done: nat): (r: Worker)
    requires p < |job.phases| && ChunkAt(job, done)
    ensures Fits(job, r.pc)
  {
    var c := NextChunk(job.count, done);
    var after := wk.(progress := wk.progress + 8 * c);
    if done + c < job.count then after.(pc := Verifying(p, done + c))
    else after.(pc := AfterPhase(job, p), verified := wk.verified + 8 * job.count)
  }

  /** The errors of a chunk are recorded. */
  function EndErrors(job: Job, wk: Worker, p: nat, done: nat): (r: Worker)
    requires p < |job.phases| && ChunkAt(job, done)
    ensures Fits(job, r.pc)
  {
    if job.cfg.mode.Extreme? then wk.(pc := Refolding(p, done, 0)) else EndVerify(job, wk, p, done)
  }

  /** Entering a chunk of the verify half; WALKING has no first stage. */
  function EnterVerify(job: Job, p: nat, done: nat): (r: Pc)
    requires p < |job.phases| && ChunkAt(job, done)
    ensures Fits(job, r)
  {
    if job.phases[p].Walking? then Recording(p, done, 0) else Scanning(p, done, 0, false)
  }

  /** What one read of the fold adds to the pressure state. */
  function Pressed(job: Job, fab: Fabric, cells: seq<Word>, state: Word, w: nat): Word
    requires job.Valid(fab) && |cells| == fab.cellCount && w < |fab.wires|
  {
    Xor(state, job.press(Load(fab, cells, w)))
  }

  /** The record of word w in phase p, if it reads wrong now. */
  function ErrorAt(job: Job, fab: Fabric, cells: seq<Word>, p: nat, w: nat): seq<ErrorRecord>
    requires job.Valid(fab) && |cells| == fab.cellCount && p < |job.phases| && w < |fab.wires|
  {
    var expected, actual := job.patterns[p](w), Load(fab, cells, w);
    if actual == expected then [] else [Mismatch(job.cfg, job.phases[p], w, expected, actual)]
  }

  /** The cells after a worker's step. */
  function StepCells(job: Job, fab: Fabric, cells: seq<Word>, pc: Pc): (r: seq<Word>)
    requires job.Valid(fab) && |cells| == fab.cellCount && Fits(job, pc)
    ensures |r| == |cells|
  {
    match pc
    case Storing(p, done, k) => var w := job.start + done + k; cells[fab.wires[w] := job.patterns[p](w)]
    case Injecting(_) => Inject(fab, cells, job.start)
    case _ => cells
  }

  /** One of the steps Storing, Folding and Injecting. */
  function WriteStep(job: Job, fab: Fabric, cells: seq<Word>, wk: Worker): (r: Worker)
    requires job.Valid(fab) && |cells| == fab.cellCount && Fits(job, wk.pc)
    requires wk.pc.Storing? || wk.pc.Folding? || wk.pc.Injecting?
    ensures Fits(job, r.pc)
  {
    match wk.pc
    case Storing(p, done, k) =>
      if k + 1 < NextChunk(job.count, done) then wk.(pc := Storing(p, done, k + 1)) else EndStores(job, wk, p, done)
    case Folding(p, done, k) =>
      var pressed := wk.(pressure := Pressed(job, fab, cells, wk.pressure, job.start + done + k));
      if k + 1 < NextChunk(job.count, done) then pressed.(pc := Folding(p, done, k + 1))
      else EndWrite(job, pressed, p, done)
    case Injecting(p) => wk.(pc := Verifying(p, 0), written := wk.written + 8 * job.count)
  }

  /** One of the steps Scanning, Recording and Refolding. */
  function VerifyStep(job: Job, fab: Fabric, cells: seq<Word>, wk: Worker): (r: Worker)
    requires job.Valid(fab) && |cells| == fab.cellCount && Fits(job, wk.pc)
    requires wk.pc.Scanning? || wk.pc.Recording? || wk.pc.Refolding?
    ensures Fits(job, r.pc)
  {
    match wk.pc
    case Scanning(p, done, k, dirty) =>
      var w := job.start + done + k;
      var now := dirty || Load(fab, cells, w) != job.patterns[p](w);
      if k + 1 < NextChunk(job.count, done) then wk.(pc := Scanning(p, done, k + 1, now))
      else if now then wk.(pc := Recording(p, done, 0))
      else EndErrors(job, wk, p, done)
    case Recording(p, done, k) =>
      var logged := wk.(log := wk.log + ErrorAt(job, fab, cells, p, job.start + done + k));
      if k + 1 < NextChunk(job.count, done) then logged.(pc := Recording(p, done, k + 1))
      else EndErrors(job, logged, p, done)
    case Refolding(p, done, k) =>
      var pressed := wk.(pressure := Pressed(job, fab, cells, wk.pressure, job.start + done + k));
      if k + 1 < NextChunk(job.count, done) then pressed.(pc := Refolding(p, done, k + 1))
      else EndVerify(job, pressed, p, done)
  }

  /** The worker after its step, when no poll stopped it. */
  function StepWorker(job: Job, fab: Fabric, cells: seq<Word>, wk: Worker): (r: Worker)
    requires job.Valid(fab) && |cells| == fab.cellCount && Running(wk.pc) && Fits(job, wk.pc)
    ensures Fits(job, r.pc)
  {
    match wk.pc
    case AtPhase(_) => EnterPhase(job, wk)
    case Writing(p, done) => wk.(pc := Storing(p, done, 0))
    case Verifying(p, done) => wk.(pc := EnterVerify(job, p, done))
    case Storing(_, _, _) => WriteStep(job, fab, cells, wk)
    case Folding(_, _, _) => WriteStep(job, fab, cells, wk)
    case Injecting(_) => WriteStep(job, fab, cells, wk)
    case Scanning(_, _, _, _) => VerifyStep(job, fab, cells, wk)
    case Recording(_, _, _) => VerifyStep(job, fab, cells, wk)
    case Refolding(_, _, _) => VerifyStep(job, fab, cells, wk)
  }

  /** One step; stop is what the stop flag reads if the step is a poll. */
  function Step(job: Job, fab: Fabric, cells: seq<Word>, wk: Worker, stop: bool): (r: (seq<Word>, Worker))
    requires job.Valid(fab) && |cells| == fab.cellCount && Running(wk.pc) && Fits(job, wk.pc)
    ensures |r.0| == |cells| && Fits(job, r.1.pc)
  {
    if stop && Polls(wk.pc) then (cells, wk.(pc := Stopped(wk.pc)))
    else (StepCells(job, fab, cells, wk.pc), StepWorker(job, fab, cells, wk))
  }

  /** A worker about to start a pass. */
  function Fresh(job: Job): (wk: Worker)
  {
    Worker(AtPhase(0), [], 0, 0, 0, Xor(job.cfg.seed, FromNat(job.cfg.workerId)), FixedA)
  }

  // ----- many workers, one arena

  /** The reads a phase makes of a word: the two folds and the two verify stages. */
  datatype Access = FoldRead | ScanRead | RecordRead | RefoldRead

  datatype Mark = Mark(access: Access, p: nat, w: nat)

  /**
   drift[w] holds the bits in which upsets have changed word w since it was last stored, and seen keeps
   the drift each word had when it was read. Neither is visible to the workers.
   */
  datatype World = World(cells: seq<Word>, workers: seq<Worker>, drift: seq<Word>, seen: map<Mark, Word>)

  datatype Event = Work(i: nat, stop: bool) | Upset(w: nat, mask: Word)

  /** The jobs of one pass: slices in order, without overlap, over memory without aliasing. */
  ghost predicate Team(jobs: seq<Job>, fab: Fabric) {
    && fab.Valid() && fab.Unaliased()
    && (forall i :: 0 <= i < |jobs| ==> jobs[i].Valid(fab))
    && (forall i, j, w :: 0 <= i < |jobs| && 0 <= j < |jobs| && jobs[i].Owns(w) && jobs[j].Owns(w) ==> i == j)
  }

  ghost predicate Shaped(jobs: seq<Job>, fab: Fabric, wd: World) {
    && |wd.cells| == fab.cellCount && |wd.drift| == |fab.wires| && |wd.workers| == |jobs|
    && (forall i :: 0 <= i < |jobs| ==> Fits(jobs[i], wd.workers[i].pc))
  }

  /** Whether an event can happen: the worker exists, or the struck word does. */
  predicate Possible(jobs: seq<Job>, fab: Fabric, ev: Event) {
    match ev
    case Work(i, _) => i < |jobs|
    case Upset(w, _) => w < |fab.wires|
  }

  /** The word a step at pc stores or reads, if any. */
  function WordAt(job: Job, pc: Pc): nat
    requires pc.Storing? || pc.Folding? || pc.Scanning? || pc.Recording? || pc.Refolding?
  {
    job.start + pc.done + pc.k
  }

  /** Storing a word settles its drift; the injection stores what it reads, and with it the drift that shows. */
  function DriftAfter(job: Job, fab: Fabric, drift: seq<Word>, pc: Pc): (r: seq<Word>)
    requires job.Valid(fab) && Fits(job, pc) && |drift| == |fab.wires|
    ensures |r| == |drift|
  {
    match pc
    case Storing(_, _, _) => drift[WordAt(job, pc) := 0]
    case Injecting(_) =>
      var w := job.start;
      drift[w := Shown(fab.stuckLow[w], fab.stuckHigh[w], drift[w])]
    case _ => drift
  }

  function MarkOf(job: Job, pc: Pc): Option<Mark> {
    match pc
    case Folding(p, _, _) => Some(Mark(FoldRead, p, WordAt(job, pc)))
    case Scanning(p, _, _, _) => Some(Mark(ScanRead, p, WordAt(job, pc)))
    case Recording(p, _, _) => Some(Mark(RecordRead, p, WordAt(job, pc)))
    case Refolding(p, _, _) => Some(Mark(RefoldRead, p, WordAt(job, pc)))
    case _ => None
  }

  function SeenAfter(job: Job, drift: seq<Word>, seen: map<Mark, Word>, pc: Pc): map<Mark, Word>
    requires Fits(job, pc) && job.start + job.count <= |drift|
  {
    var mark := MarkOf(job, pc);
    if mark.Some? then seen[mark.value := drift[mark.value.w]] else seen
  }

  function Happen(jobs: seq<Job>, fab: Fabric, wd: World, ev: Event): (r: World)
    requires Team(jobs, fab) && Shaped(jobs, fab, wd) && Possible(jobs, fab, ev)
    ensures Shaped(jobs, fab, r)
  {
    match ev
    case Work(i, stop) =>
      var wk := wd.workers[i];
      if Running(wk.pc) then
        var next := Step(jobs[i], fab, wd.cells, wk, stop);
        World(next.0, wd.workers[i := next.1], DriftAfter(jobs[i], fab, wd.drift, wk.pc),
              SeenAfter(jobs[i], wd.drift, wd.seen, wk.pc))
      else wd
    case Upset(w, mask) =>
      var c := fab.wires[w];
      World(wd.cells[c := Xor(wd.cells[c], mask)], wd.workers, wd.drift[w := Xor(wd.drift[w], mask)], wd.seen)
  }

  ghost predicate AllPossible(jobs: seq<Job>, fab: Fabric, evs: seq<Event>) {
    forall k :: 0 <= k < |evs| ==> Possible(jobs, fab, evs[k])
  }

  /** The world after a whole history of events. */
  function Exec(jobs: seq<Job>, fab: Fabric, wd: World, evs: seq<Event>): (r: World)
    requires Team(jobs, fab) && Shaped(jobs, fab, wd) && AllPossible(jobs, fab, evs)
    ensures Shaped(jobs, fab, r)
  {
    if evs == [] then wd
    else Happen(jobs, fab, Exec(jobs, fab, wd, evs[..|evs| - 1]), evs[|evs| - 1])
  }

  /** All workers at the start of a pass over whatever the cells hold. */
  function Begin(jobs: seq<Job>, fab: Fabric, cells: seq<Word>): (wd: World)
    requires Team(jobs, fab) && |cells| == fab.cellCount
    ensures Shaped(jobs, fab, wd)
  {
    World(cells, seq(|jobs|, i requires 0 <= i < |jobs| => Fresh(jobs[i])), seq(|fab.wires|, _ => 0), map[])
  }

  predicate NoUpsets(evs: seq<Event>) {
    forall k :: 0 <= k < |evs| ==> evs[k].Work?
  }

  /** No poll of the stop flag reads true. */
  predicate NeverStopped(evs: seq<Event>) {
    forall k :: 0 <= k < |evs| && evs[k].Work? ==> !evs[k].stop
  }

  // ----- how long a worker can go on

  /** An upper bound on the steps a worker makes for one phase. */
  function PhaseFuel(job: Job): nat {
    7 * job.count + 2
  }

  function PassFuel(job: Job): nat {
    |job.phases| * PhaseFuel(job)
  }

  function LaterPhases(job: Job, p: nat): nat
    requires p < |job.phases|
  {
    FuelOf(|job.phases| - p - 1, PhaseFuel(job))
  }

  function FuelOf(phases: nat, each: nat): nat {
    phases * each
  }

  /** An upper bound on the steps left. */
  function Fuel(job: Job, pc: Pc): nat
    requires Fits(job, pc)
  {
    match pc
    case AtPhase(p) => LaterPhases(job, p) + PhaseFuel(job)
    case Writing(p, done) => LaterPhases(job, p) + 4 * job.count + 1 + 3 * (job.count - done)
    case Storing(p, done, k) => LaterPhases(job, p) + 4 * job.count + 3 * (job.count - done) - k
    case Folding(p, done, k) =>
      LaterPhases(job, p) + 4 * job.count + 3 * (job.count - done) - NextChunk(job.count, done) - k
    case Injecting(p) => LaterPhases(job, p) + 4 * job.count + 1
    case Verifying(p, done) => LaterPhases(job, p) + 4 * (job.count - done)
    case Scanning(p, done, k, _) => LaterPhases(job, p) + 4 * (job.count - done) - 1 - k
    case Recording(p, done, k) => LaterPhases(job, p) + 4 * (job.count - done) - 1 - NextChunk(job.count, done) - k
    case Refolding(p, done, k) => LaterPhases(job, p) + 4 * (job.count - done) - 1 - 2 * NextChunk(job.count, done) - k
    case Finished => 0
    case Stopped(_) => 0
  }

  lemma {:induction false} PhaseOver(job: Job, p: nat)
    requires p < |job.phases|
    ensures var pc := AfterPhase(job, p); Fits(job, pc) && Fuel(job, pc) == LaterPhases(job, p)
  {
    if p + 1 < |job.phases| {
      var n, b := |job.phases| - p - 2, PhaseFuel(job);
      assert (n + 1) * b == n * b + b;
    }
  }

  lemma {:induction false} EndWriteFuel(job: Job, wk: Worker, p: nat, done: nat)
    requires p < |job.phases| && ChunkAt(job, done)
    ensures Fuel(job, EndWrite(job, wk, p, done).pc)
      <= LaterPhases(job, p) + 4 * job.count + 1 + 3 * (job.count - done - NextChunk(job.count, done))
  {
    hide LaterPhases;
  }

  lemma {:induction false} EndStoresFuel(job: Job, wk: Worker, p: nat, done: nat)
    requires p < |job.phases| && ChunkAt(job, done)
    ensures Fuel(job, EndStores(job, wk, p, done).pc)
      <= LaterPhases(job, p) + 4 * job.count + 3 * (job.count - done) - NextChunk(job.count, done)
  {
    hide LaterPhases, EndWrite;
    EndWriteFuel(job, wk, p, done);
  }

  lemma {:induction false} EndVerifyFuel(job: Job, wk: Worker, p: nat, done: nat)
    requires p < |job.phases| && ChunkAt(job, done)
    ensures Fuel(job, EndVerify(job, wk, p, done).pc)
      <= LaterPhases(job, p) + 4 * (job.count - done - NextChunk(job.count, done))
  {
    hide LaterPhases;
    PhaseOver(job, p);
  }

  lemma {:induction false} EndErrorsFuel(job: Job, wk: Worker, p: nat, done: nat)
    requires p < |job.phases| && ChunkAt(job, done)
    ensures Fuel(job, EndErrors(job, wk, p, done).pc)
      <= LaterPhases(job, p) + 4 * (job.count - done) - 1 - 2 * NextChunk(job.count, done)
  {
    hide LaterPhases, EndVerify;
    EndVerifyFuel(job, wk, p, done);
  }

  lemma {:induction false} WriteBurns(job: Job, fab: Fabric, cells: seq<Word>, wk: Worker)
    requires job.Valid(fab) && |cells| == fab.cellCount && Fits(job, wk.pc)
    requires wk.pc.Storing? || wk.pc.Folding? || wk.pc.Injecting?
    ensures Fuel(job, WriteStep(job, fab, cells, wk).pc) < Fuel(job, wk.pc)
  {
    hide LaterPhases, Pressed, EndWrite, EndStores;
    match wk.pc
    case Storing(p, done, _) => EndStoresFuel(job, wk, p, done);
    case Folding(p, done, k) =>
      EndWriteFuel(job, wk.(pressure := Pressed(job, fab, cells, wk.pressure, job.start + done + k)), p, done);
    case Injecting(_) =>
  }

  lemma {:induction false} VerifyBurns(job: Job, fab: Fabric, cells: seq<Word>, wk: Worker)
    requires job.Valid(fab) && |cells| == fab.cellCount && Fits(job, wk.pc)
    requires wk.pc.Scanning? || wk.pc.Recording? || wk.pc.Refolding?
    ensures Fuel(job, VerifyStep(job, fab, cells, wk).pc) < Fuel(job, wk.pc)
  {
    hide Load, LaterPhases, Pressed, ErrorAt, EndVerify, EndErrors;
    match wk.pc
    case Scanning(p, done, _, _) => EndErrorsFuel(job, wk, p, done);
    case Recording(p, done, k) =>
      EndErrorsFuel(job, wk.(log := wk.log + ErrorAt(job, fab, cells, p, job.start + done + k)), p, done);
    case Refolding(p, done, k) =>
      EndVerifyFuel(job, wk.(pressure := Pressed(job, fab, cells, wk.pressure, job.start + done + k)), p, done);
  }

  lemma {:induction false} EnterBurns(job: Job, p: nat, done: nat)
    requires p < |job.phases| && ChunkAt(job, done)
    ensures Fuel(job, EnterVerify(job, p, done)) < Fuel(job, Verifying(p, done))
  {
    hide LaterPhases;
  }

  /** Every step brings a worker nearer its end. */
  lemma {:induction false} StepBurns(job: Job, fab: Fabric, cells: seq<Word>, wk: Worker, stop: bool)
    requires job.Valid(fab) && |cells| == fab.cellCount && Running(wk.pc) && Fits(job, wk.pc)
    ensures Fuel(job, Step(job, fab, cells, wk, stop).1.pc) < Fuel(job, wk.pc)
  {
    hide LaterPhases, WriteStep, VerifyStep, EnterVerify, StepCells;
    match wk.pc
    case AtPhase(p) => PhaseOver(job, p);
    case Writing(_, _) =>
    case Verifying(p, done) => EnterBurns(job, p, done);
    case Storing(_, _, _) => WriteBurns(job, fab, cells, wk);
    case Folding(_, _, _) => WriteBurns(job, fab, cells, wk);
    case Injecting(_) => WriteBurns(job, fab, cells, wk);
    case Scanning(_, _, _, _) => VerifyBurns(job, fab, cells, wk);
    case Recording(_, _, _) => VerifyBurns(job, fab, cells, wk);
    case Refolding(_, _, _) => VerifyBurns(job, fab, cells, wk);
  }
}
