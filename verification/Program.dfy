/**
 One test from the heap on: the override heap is split, its arena rounded, the pump's region carved off,
 and a session run on what is left.
 */
module Programs {
  import opened Words
  import opened Patterns
  import opened Reports
  import opened Arenas
  import opened Memories
  import opened StuckBits
  import opened Runner
  import opened Platforms
  import opened Sessions

  /** How a run begins. */
  datatype Start =
    | HeapRefused            // the program aborts
    | NoArena                // it says that there is no usable heap
    | Ready(carve: Carve)

  /** n words of a memory, from word `from` on. */
  function Part(ram: Fabric, from: nat, n: nat): (fab: Fabric)
    requires ram.Valid() && ram.Unaliased() && from + n <= |ram.wires|
    ensures fab.Valid() && fab.Unaliased() && |fab.wires| == n && fab.cellCount == ram.cellCount
  {
    Fabric(ram.wires[from..from + n], ram.stuckLow[from..from + n], ram.stuckHigh[from..from + n], ram.cellCount)
  }

  /** The memory the CPU workers test: its words. */
  predicate Inside(cpu: Arena, ram: Fabric) {
    cpu.base % WORD_BYTES == 0 && cpu.size == WORD_BYTES * cpu.words && cpu.base + cpu.size <= WORD_BYTES * |ram.wires|
  }

  function CpuPart(cpu: Arena, ram: Fabric): (fab: Fabric)
    requires ram.Valid() && ram.Unaliased() && Inside(cpu, ram)
    ensures fab.Valid() && fab.Unaliased() && |fab.wires| == cpu.words
  {
    Part(ram, cpu.base / WORD_BYTES, cpu.words)
  }

  /** The CPU workers get the heap's paged part but for the runtime's reserve and the pump's region, whole pages all. */
  predicate Divides(c: Carve, usable: Range, mode: Mode, cores: nat, pumpStarts: bool) {
    var left := usable.size - RuntimeHeapReserve(usable.size);
    && c.cpu.base == usable.start + RuntimeHeapReserve(usable.size) && c.cpu.size + c.pumpRegion == left
    && c.cpu.base % PAGE == c.cpu.size % PAGE == 0 && c.cpu.size > 0
    && c.workers == (if c.pumpActive then cores - 1 else if cores == 0 then 1 else cores)
    && (c.pumpActive <==> !mode.Quick? && left >= 1024 * MIB && cores >= 2 && pumpStarts)
    && c.pumpRegion == (if c.pumpActive then 256 * MIB else 0)
  }

  /** From the heap to the arena of the CPU workers. */
  method Prepare(rawStart: nat, rawSize: nat, mode: Mode, cores: nat, pumpStarts: bool) returns (start: Start)
    requires rawStart + rawSize < TWO64
    ensures var usable := LargestPaged(Range(rawStart, rawSize));
      && (start.HeapRefused? <==> usable.size == 0)
      && (start.NoArena? <==> 0 < usable.size < 4 * MIB)
      && (start.Ready? ==>
            && Divides(start.carve, usable, mode, cores, pumpStarts) && Usable(start.carve.cpu)
            && start.carve.cpu.words * WORD_BYTES == start.carve.cpu.size)
  {
    hide LargestPaged, RuntimeHeapReserve, ArenaFromRange;
    var platform := new Platform();
    var ok := platform.InitOverrideHeap(rawStart, rawSize);
    if !ok {
      return HeapRefused;
    }
    if platform.arenaSize == 0 {
      return NoArena;
    }
    var offered := Range(platform.arenaAddr, platform.arenaSize);
    UsableIsInside(Range(rawStart, rawSize));
    ArenaKeepsPagedRange(offered);
    var arena := ArenaFromRange(offered.start, offered.size);
    var carve := CarvePump(mode, arena, if cores == 0 then 1 else cores, pumpStarts);
    CarvedArenaIsUsable(offered, carve);
    start := Ready(carve);
  }

  /**
   The program from heap to verdict. `ram` is the machine's memory by word address, and `rounds(n)` what the
   outside world does to a session of n workers. Whatever heap it is given, no worker is ever refused, and the
   verdict is about the memory alone: fault-free memory fails only for a GPU error, and a load mode that gets
   through its first round fails exactly for a stuck bit or a GPU error, and reports all stuck bits.
   */
  method RunProgram(ram: Fabric, cells: seq<Word>, rawStart: nat, rawSize: nat, mode: Mode, seed: Word, cores: nat,
      pumpStarts: bool, timed: bool, rounds: nat -> seq<Round>, gpuErrors: nat, neon: bool, placeholder: ErrorRecord)
      returns (start: Start, status: Option<Status>, ghost found: Summary)
    requires ram.Valid() && ram.Unaliased() && |cells| == ram.cellCount
    requires rawStart + rawSize <= WORD_BYTES * |ram.wires|
    requires forall n: nat :: WellFormed(rounds(n), n)
    ensures start.HeapRefused? <==> LargestPaged(Range(rawStart, rawSize)).size == 0
    ensures start.NoArena? <==> 0 < LargestPaged(Range(rawStart, rawSize)).size < 4 * MIB
    ensures status.Some? <==> start.Ready?
    ensures start.Ready? ==>
      var c := start.carve;
      && Divides(c, LargestPaged(Range(rawStart, rawSize)), mode, cores, pumpStarts) && Inside(c.cpu, ram)
      && c.workers > 0
      && Judged(ram, c, mode, seed, timed, rounds(c.workers), c.pumpActive && gpuErrors > 0, status.value, found)
  {
    hide LargestPaged, Divides, WellFormed, Part, StuckSomewhere, StuckBetween, LoadsOnce, StuckReport, AllLogs,
         CrewLog;
    start := Prepare(rawStart, rawSize, mode, cores, pumpStarts);
    status, found := None, EMPTY;
    if start.Ready? {
      var c := start.carve;
      HasRoom(c, Range(rawStart, rawSize), mode, cores, pumpStarts);
      PartSticks(c.cpu, ram);
      var mem := new Memory(CpuPart(c.cpu, ram), cells);
      var session := new Session(placeholder);
      ghost var plays, merged := session.RunSession(mem, c.cpu, mode, seed, c.workers, timed, rounds(c.workers),
        if c.pumpActive then gpuErrors else 0, neon, placeholder);
      status, found := Some(session.status), session.report.Contents();
    }
  }

  /** A word between these two addresses has a stuck bit. */
  ghost predicate StuckBetween(ram: Fabric, lo: nat, hi: nat)
    requires ram.Valid()
  {
    exists a: nat :: a < |ram.wires| && lo <= WORD_BYTES * a < hi && (ram.stuckLow[a] != 0 || ram.stuckHigh[a] != 0)
  }

  /** What the verdict says about the memory the CPU workers had. */
  ghost predicate Judged(ram: Fabric, c: Carve, mode: Mode, seed: Word, timed: bool, history: seq<Round>,
      gpuError: bool, status: Status, found: Summary)
    requires ram.Valid() && ram.Unaliased() && Inside(c.cpu, ram) && c.workers > 0
  {
    var fab, stuck := CpuPart(c.cpu, ram), StuckBetween(ram, c.cpu.base, c.cpu.base + c.cpu.size);
    && status != Unsupported
    && (status == Fail ==> stuck || gpuError)
    && (LoadsOnce(Setup(mode, seed, c.workers, fab), timed, history) ==>
          && (status == Fail <==> stuck || gpuError)
          && StuckReport(fab, found, 0, |fab.wires|))
  }

  /** A word of the part has a stuck bit exactly if its word of the memory has. */
  lemma {:induction false} PartWord(cpu: Arena, ram: Fabric, w: nat)
    requires ram.Valid() && ram.Unaliased() && Inside(cpu, ram) && w < cpu.words
    ensures var fab, a := CpuPart(cpu, ram), cpu.base / WORD_BYTES + w;
      && a < |ram.wires| && cpu.base <= WORD_BYTES * a < cpu.base + cpu.size
      && fab.stuckLow[w] == ram.stuckLow[a] && fab.stuckHigh[w] == ram.stuckHigh[a]
      && (StuckAt(fab, w) != 0 <==> ram.stuckLow[a] != 0 || ram.stuckHigh[a] != 0)
  {
    hide Or;
    var fab := CpuPart(cpu, ram);
    OrLaws(fab.stuckLow[w], fab.stuckHigh[w], 0);
  }

  lemma {:induction false} PartSticks(cpu: Arena, ram: Fabric)
    requires ram.Valid() && ram.Unaliased() && Inside(cpu, ram)
    ensures StuckSomewhere(CpuPart(cpu, ram)) <==> StuckBetween(ram, cpu.base, cpu.base + cpu.size)
    ensures !StuckBetween(ram, cpu.base, cpu.base + cpu.size) ==> CpuPart(cpu, ram).NoStuckBits()
  {
    hide StuckAt, CpuPart;
    var fab, from := CpuPart(cpu, ram), cpu.base / WORD_BYTES;
    if StuckBetween(ram, cpu.base, cpu.base + cpu.size) {
      var a: nat :| a < |ram.wires| && cpu.base <= WORD_BYTES * a < cpu.base + cpu.size
        && (ram.stuckLow[a] != 0 || ram.stuckHigh[a] != 0);
      PartWord(cpu, ram, a - from);
    }
    forall w: nat | w < cpu.words
      ensures StuckAt(fab, w) != 0 ==> StuckBetween(ram, cpu.base, cpu.base + cpu.size)
      ensures fab.stuckLow[w] != 0 || fab.stuckHigh[w] != 0 ==> StuckBetween(ram, cpu.base, cpu.base + cpu.size)
    {
      PartWord(cpu, ram, w);
    }
  }

  lemma {:induction false} HasRoom(c: Carve, raw: Range, mode: Mode, cores: nat, pumpStarts: bool)
    requires Divides(c, LargestPaged(raw), mode, cores, pumpStarts)
    ensures c.cpu.base + c.cpu.size <= raw.start + raw.size && c.cpu.base % WORD_BYTES == 0 && c.workers > 0
  {
    hide RuntimeHeapReserve, LargestPaged;
    UsableIsInside(raw);
    ModUnique(c.cpu.base, 0, 512 * (c.cpu.base / PAGE), WORD_BYTES);
  }

  lemma UsableIsInside(raw: Range)
    requires LargestPaged(raw).size > 0
    ensures LargestPaged(raw).Within(raw)
  {}
}
