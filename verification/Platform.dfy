/**
 Where the memory goes: the override heap is split into a runtime heap and the test arena, and in the
 load modes the tail of the arena is carved off for the GPU copy pump.
 */
module Platforms {
  import opened Words
  import opened Patterns
  import opened Arenas

  /** A byte range [start, start + size). */
  datatype Range = Range(start: nat, size: nat)
  {
    predicate Paged() {
      start % PAGE == 0 && size % PAGE == 0
    }

    predicate Within(other: Range) {
      other.start <= start && start + size <= other.start + other.size
    }

    predicate Apart(other: Range) {
      start + size <= other.start || other.start + other.size <= start
    }
  }

  /** The globals `__libnx_initheap` sets. */
  class Platform {
    var heapStart: nat
    var heapEnd: nat
    var arenaAddr: nat
    var arenaSize: nat

    constructor ()
      ensures heapStart == heapEnd == arenaAddr == arenaSize == 0
    {
      heapStart, heapEnd, arenaAddr, arenaSize := 0, 0, 0, 0;
    }

    ghost function RuntimeHeap(): Range
      requires heapStart <= heapEnd
      reads this
    {
      Range(heapStart, heapEnd - heapStart)
    }

    ghost function TestArena(): Range
      reads this
    {
      Range(arenaAddr, arenaSize)
    }

    /**
     The override branch of `__libnx_initheap`; false where it aborts the program. For a heap inside the
     address space, runtime heap and arena lie one after the other and together are the largest paged
     part of it; the arena is empty exactly when that part is below 4 MiB.
     */
    method InitOverrideHeap(rawStart: nat, rawSize: nat) returns (ok: bool)
      requires rawStart < TWO64 && rawSize < TWO64
      modifies this
      ensures rawStart + rawSize < TWO64 ==>
        var usable := LargestPaged(Range(rawStart, rawSize));
        && (ok <==> usable.size > 0)
        && (ok ==> heapStart == usable.start && heapStart <= heapEnd && RuntimeHeap().Paged() && TestArena().Paged())
        && (ok && usable.size >= 4 * MIB ==>
              && arenaAddr == heapEnd == usable.start + RuntimeHeapReserve(usable.size)
              && arenaAddr + arenaSize == usable.start + usable.size
              && RuntimeHeap().size > 0 && arenaSize > 0)
        && (ok && usable.size < 4 * MIB ==> arenaSize == 0 && RuntimeHeap() == usable)
    {
      hide AlignDown, AlignUp, LargestPaged, RuntimeHeapReserve;
      ok := false;
      heapStart, heapEnd, arenaAddr, arenaSize := 0, 0, 0, 0;
      LargestPagedIsRoundedOff(rawStart, rawSize);
      match AlignUp(rawStart)
      case None =>
      case Some(alignedStart) =>
        var prefix := alignedStart - rawStart;
        if rawSize > prefix {
          var usableSize := AlignDown(rawSize - prefix);
          if usableSize != 0 {
            var reserve := AlignDown(RuntimeHeapReserve(usableSize));
            AlignDownMonotone(RuntimeHeapReserve(usableSize), RuntimeHeapReserve(usableSize));
            PagedSplit(alignedStart, usableSize, reserve);
            heapStart := alignedStart;
            if reserve != 0 && usableSize > reserve {
              heapEnd := U64(alignedStart + reserve);
              arenaAddr := U64(alignedStart + reserve);
              arenaSize := usableSize - reserve;
            } else {
              heapEnd := U64(alignedStart + usableSize);
            }
            ok := true;
          }
        }
    }
  }

  lemma PagedSum(a: nat, b: nat)
    requires a % PAGE == 0 && b % PAGE == 0
    ensures (a + b) % PAGE == 0
  {
    ModUnique(a + b, 0, a / PAGE + b / PAGE, PAGE);
  }

  lemma PagedSplit(start: nat, size: nat, reserve: nat)
    requires start % PAGE == size % PAGE == reserve % PAGE == 0
    ensures (start + reserve) % PAGE == 0
    ensures size >= reserve ==> (size - reserve) % PAGE == 0
  {
    PagedSum(start, reserve);
    ModUnique(if size >= reserve then size - reserve else 0, 0,
      if size >= reserve then size / PAGE - reserve / PAGE else 0, PAGE);
  }

  /** The largest page-aligned part of a range. */
  function LargestPaged(r: Range): Range {
    var lo := AlignDown(r.start + PAGE - 1);
    var hi := AlignDown(r.start + r.size);
    Range(lo, if hi > lo then hi - lo else 0)
  }

  /** It is paged, inside the range unless empty, and contains every other paged part. */
  lemma LargestPagedContainsAll(r: Range, part: Range)
    requires part.Paged() && part.Within(r) && part.size > 0
    ensures LargestPaged(r).Paged() && LargestPaged(r).Within(r) && part.Within(LargestPaged(r))
  {
    hide AlignDown;
    PagedSum(part.start, part.size);
    AlignDownMonotone(part.start + part.size, r.start + r.size);
    AlignDownMonotone(r.start + PAGE - 1, part.start + PAGE - 1);
    AlignDownMonotone(part.start, part.start);
    AlignDownMonotone(part.start + part.size, part.start + part.size);
    PagedDifference(AlignDown(r.start + r.size), AlignDown(r.start + PAGE - 1));
  }

  lemma AlignDownMonotone(a: nat, b: nat)
    requires a <= b
    ensures AlignDown(a) <= AlignDown(b)
    ensures a % PAGE == 0 ==> AlignDown(a) == a && AlignDown(a + PAGE - 1) == a
  {}

  lemma LargestPagedIsRoundedOff(start: nat, size: nat)
    requires start < TWO64 && size < TWO64
    ensures var up := AlignUp(start); start + size < TWO64 ==>
      if up.Some? && size > up.value - start
      then LargestPaged(Range(start, size)) == Range(up.value, AlignDown(size - (up.value - start)))
      else LargestPaged(Range(start, size)).size == 0
  {
    match AlignUp(start)
    case None => AlignDownMonotone(start, start + size);
    case Some(up) =>
      if size > up - start {
        AlignDownShift(up, size - (up - start));
      } else {
        AlignDownMonotone(start + size, up);
      }
  }

  lemma AlignDownShift(base: nat, n: nat)
    requires base % PAGE == 0
    ensures AlignDown(base + n) == base + AlignDown(n)
  {}

  /** `nxmt_arena_from_range` loses nothing of an arena that is already paged. */
  lemma ArenaKeepsPagedRange(r: Range)
    requires r.Paged() && r.start + r.size < TWO64 && r.size > 0
    ensures ArenaFromRange(r.start, r.size) == Arena(r.start, r.size, r.size / WORD_BYTES)
    ensures ArenaFromRange(r.start, r.size).words * WORD_BYTES == r.size
  {
    hide AlignDown;
    PagedSum(r.start, r.size);
    AlignDownMonotone(r.start, r.start);
    AlignDownMonotone(r.start + r.size, r.start + r.size);
    PagedDifference(r.size, 0);
  }

  // ----- carving the pump's region off the arena

  const PUMP_REGION: nat := 256 * MIB
  const PUMP_BUFFER: nat := 64 * MIB

  /** What the session decides before its first pass. */
  datatype Carve = Carve(cpu: Arena, pumpRegion: nat, workers: nat, pumpActive: bool)

  /**
   The carve of the load modes. `pumpStarts` is whether the pump, if asked, comes up: without it the
   whole arena goes back to the CPU workers.
   */
  method CarvePump(mode: Mode, arena: Arena, workers: nat, pumpStarts: bool) returns (c: Carve)
    requires arena.words == arena.size / WORD_BYTES && workers > 0
    ensures c.pumpActive <==> !mode.Quick? && arena.size >= 1024 * MIB && workers >= 2 && pumpStarts
    ensures if c.pumpActive then c.pumpRegion == 256 * MIB && c.workers == workers - 1
            else c == Carve(arena, 0, workers, false)
    ensures c.workers > 0
    ensures c.cpu.base == arena.base && c.cpu.size + c.pumpRegion == arena.size
      && c.cpu.words == c.cpu.size / WORD_BYTES
    ensures arena.size % PAGE == 0 ==> c.cpu.size % PAGE == 0
    ensures arena.size > 0 ==> c.cpu.size > 0
  {
    var cpu, left, active, region := arena, workers, false, 0;
    if (mode.MemoryLoad? || mode.Extreme?) && arena.size >= 1024 * MIB && workers >= 2 {
      region := PUMP_REGION;
      cpu := cpu.(size := arena.size - region);
      cpu := cpu.(words := cpu.size / WORD_BYTES);
      active := pumpStarts;
      if active {
        left := workers - 1;
      } else {
        cpu := arena;
        region := 0;
      }
    }
    c := Carve(cpu, region, left, active);
  }
}
