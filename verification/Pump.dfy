/**
 The GPU copy pump: its size check, the layout of its storage, the compute dispatch that compares
 destination with source, and the accounting of the batch loop.
 */
module Pumps {
  import opened Words
  import opened Patterns
  import opened Arenas
  import opened Platforms
  import opened ChunkWrite
  import opened Runner

  const CMD_BYTES: nat := 64 * 1024
  const SHADER_BYTES: nat := 16 * 1024
  const RESULT_BYTES: nat := 4 * 1024
  const PREAMBLE: nat := CMD_BYTES + SHADER_BYTES + RESULT_BYTES
  const BATCH: nat := 8
  const LOCAL_X: nat := 256
  const LANE_BYTES: nat := 16
  const TWO32: nat := 0x1_0000_0000

  // ----- size check and layout

  /** The buffer size rounded up to pages, in 64-bit arithmetic. */
  function BufferAligned(size: nat): nat {
    AlignDown(U64(size + PAGE - 1))
  }

  /** The size check of `nxmt_gpu_pump_start`. */
  predicate SizeAccepted(storage: nat, size: nat) {
    size != 0 && storage >= U64(PREAMBLE + U64(2 * BufferAligned(size)))
  }

  /** What the pump really needs, without wrap-around. */
  function Needed(size: nat): nat {
    PREAMBLE + 2 * AlignDown(size + PAGE - 1)
  }

  /** The regions `pump_setup` hands to the GPU. */
  function Regions(base: nat, aligned: nat): (r: seq<Range>)
    ensures |r| == 5
  {
    [ Range(base, CMD_BYTES),
      Range(base + CMD_BYTES, SHADER_BYTES),
      Range(base + CMD_BYTES + SHADER_BYTES, RESULT_BYTES),
      Range(base + PREAMBLE, aligned),
      Range(base + PREAMBLE + aligned, aligned) ]
  }

  /** Every region lies in the storage, no two overlap, and both buffers hold the requested bytes. */
  ghost predicate Fit(storage: Range, size: nat, regions: seq<Range>) {
    && |regions| == 5
    && (forall i :: 0 <= i < 5 ==> regions[i].Within(storage))
    && (forall i, j :: 0 <= i < j < 5 ==> regions[i].Apart(regions[j]))
    && regions[3].size >= size && regions[4].size >= size
  }

  /** The size check is right exactly as long as the required size does not wrap around 2^64. */
  lemma SizeCheckIsExact(storage: nat, size: nat)
    requires storage < TWO64 && size < TWO64
    ensures 0 < size && Needed(size) <= storage <==> SizeAccepted(storage, size) && Needed(size) < TWO64
  {
    var exact := AlignDown(size + PAGE - 1);
    if Needed(size) < TWO64 {
      assert U64(size + PAGE - 1) == size + PAGE - 1;
      assert U64(2 * exact) == 2 * exact;
    }
  }

  lemma AcceptedRegionsFit(base: nat, storage: nat, size: nat)
    requires storage < TWO64 && 0 < size < TWO64
    requires SizeAccepted(storage, size) && Needed(size) < TWO64
    ensures Fit(Range(base, storage), size, Regions(base, BufferAligned(size)))
    ensures base % PAGE == 0 ==> forall i :: 0 <= i < 5 ==> Regions(base, BufferAligned(size))[i].Paged()
    ensures var regions := Regions(base, BufferAligned(size));
      && regions[0].size == 64 * 1024 && regions[1].size == 16 * 1024 && regions[2].size == 4 * 1024
      && regions[0].start == base
      && (forall i :: 0 <= i < 4 ==> regions[i + 1].start == regions[i].start + regions[i].size)
      && regions[4].start + regions[4].size == base + Needed(size)
  {
    SizeCheckIsExact(storage, size);
    var exact := AlignDown(size + PAGE - 1);
    assert U64(size + PAGE - 1) == size + PAGE - 1;
  }

  /** A buffer of 2^63 bytes passes the check although no storage could hold two of them. */
  lemma WrappedSizeIsAccepted(base: nat)
    ensures var size := 0x8000_0000_0000_0000;
      SizeAccepted(PREAMBLE, size) && !Fit(Range(base, PREAMBLE), size, Regions(base, BufferAligned(size)))
  {
    var size := 0x8000_0000_0000_0000;
    assert BufferAligned(size) == size;
    assert !Regions(base, size)[3].Within(Range(base, PREAMBLE));
  }

  /** In the carve of a session all regions fit in the tail, and stay clear of the CPU arena. */
  lemma CarvedRegionsAreSafe(arena: Arena, c: Carve)
    requires arena.base + arena.size < TWO64 && c.pumpActive && c.pumpRegion == 256 * MIB
    requires c.cpu.base == arena.base && c.cpu.size + c.pumpRegion == arena.size
    ensures var storage := Range(arena.base + c.cpu.size, c.pumpRegion);
      var regions := Regions(storage.start, BufferAligned(64 * MIB));
      && SizeAccepted(storage.size, 64 * MIB) && Fit(storage, 64 * MIB, regions)
      && storage.Within(Range(arena.base, arena.size))
      && forall i :: 0 <= i < 5 ==> regions[i].Apart(Range(c.cpu.base, c.cpu.size))
  {
    assert Needed(PUMP_BUFFER) <= PUMP_REGION;
    SizeCheckIsExact(c.pumpRegion, PUMP_BUFFER);
    AcceptedRegionsFit(arena.base + c.cpu.size, c.pumpRegion, PUMP_BUFFER);
  }

  // ----- the compare dispatch

  /** The buffer size as the GPU objects are created, copied and bound with it: truncated to 32 bits. */
  function BoundBytes(aligned: nat): nat {
    aligned % TWO32
  }

  function Invocations(aligned: nat): nat {
    (aligned / LANE_BYTES) % TWO32
  }

  function Groups(aligned: nat): nat {
    Invocations(aligned) / LOCAL_X
  }

  /**
   The dispatch has one invocation per lane of the bound buffer exactly where truncating the lane count to
   32 bits loses no more than truncating the byte count does.
   */
  lemma DispatchMatchesBinding(aligned: nat)
    requires aligned % PAGE == 0
    ensures Groups(aligned) * LOCAL_X == BoundBytes(aligned) / LANE_BYTES <==> aligned / TWO32 % 16 == 0
    ensures aligned < TWO32 ==> BoundBytes(aligned) == aligned && Groups(aligned) * LOCAL_X == aligned / LANE_BYTES
  {
    var q, r := aligned / TWO32, aligned % TWO32;
    var lane := TWO32 / LANE_BYTES;
    PagedRemainder(aligned);
    var pages := r / PAGE;
    assert r == LANE_BYTES * (LOCAL_X * pages);
    assert aligned == LANE_BYTES * (q * lane + LOCAL_X * pages);
    var high, low := q / 16, q % 16;
    assert q * lane + LOCAL_X * pages == TWO32 * high + (low * lane + LOCAL_X * pages);
    ModUnique(q * lane + LOCAL_X * pages, low * lane + LOCAL_X * pages, high, TWO32);
    assert Invocations(aligned) == LOCAL_X * (low * (lane / LOCAL_X) + pages);
  }

  lemma PagedRemainder(n: nat)
    requires n % PAGE == 0
    ensures n % TWO32 % PAGE == 0
  {
    var m := n / PAGE - n / TWO32 * (TWO32 / PAGE);
    ModUnique(n % TWO32, 0, m, PAGE);
  }

  /** One page beyond 4 GiB the dispatch overruns a binding of a single page. */
  lemma DispatchCanOverrun()
    ensures var aligned := TWO32 + PAGE;
      aligned % PAGE == 0 && BoundBytes(aligned) == PAGE && Groups(aligned) * LOCAL_X * LANE_BYTES > BoundBytes(aligned)
  {}

  /** `gl_GlobalInvocationID.x` of invocation l of work group g. */
  function GlobalId(g: nat, l: nat): nat {
    g * LOCAL_X + l
  }

  /** Every lane below the dispatch size belongs to exactly one invocation. */
  lemma LaneHasOneInvocation(groups: nat, lane: nat)
    requires lane < groups * LOCAL_X
    ensures lane / LOCAL_X < groups && GlobalId(lane / LOCAL_X, lane % LOCAL_X) == lane
    ensures forall g: nat, l: nat :: l < LOCAL_X && GlobalId(g, l) == lane ==>
      g == lane / LOCAL_X && l == lane % LOCAL_X
  {}

  /** One `uvec4`. */
  datatype Lane = Lane(x: bv32, y: bv32, z: bv32, w: bv32)

  function Or32(a: bv32, b: bv32): bv32 {
    a | b
  }

  function Xor32(a: bv32, b: bv32): bv32 {
    a ^ b
  }

  lemma Or32IsZero(a: bv32, b: bv32)
    ensures Or32(a, b) == 0 <==> a == 0 && b == 0
  {}

  lemma Xor32IsZero(a: bv32, b: bv32)
    ensures Xor32(a, b) == 0 <==> a == b
  {}

  /** What one invocation reduces its two lanes to. */
  function Reduce(a: Lane, b: Lane): bv32 {
    Or32(Or32(Or32(Xor32(a.x, b.x), Xor32(a.y, b.y)), Xor32(a.z, b.z)), Xor32(a.w, b.w))
  }

  lemma ReduceIsZeroOnEqual(a: Lane, b: Lane)
    ensures Reduce(a, b) == 0 <==> a == b
  {
    hide Or32, Xor32;
    var x, y, z, w := Xor32(a.x, b.x), Xor32(a.y, b.y), Xor32(a.z, b.z), Xor32(a.w, b.w);
    Xor32IsZero(a.x, b.x);
    Xor32IsZero(a.y, b.y);
    Xor32IsZero(a.z, b.z);
    Xor32IsZero(a.w, b.w);
    Or32IsZero(x, y);
    Or32IsZero(Or32(x, y), z);
    Or32IsZero(Or32(Or32(x, y), z), w);
  }

  function SetFlag(flag: bv32): bv32 {
    flag | 1
  }

  lemma FlagIsSet(flag: bv32)
    ensures SetFlag(flag) != 0
  {}

  /** The result word after the invocations ran one after the other in the given order. */
  function Dispatch(src: seq<Lane>, dst: seq<Lane>, order: seq<nat>, flag: bv32): bv32
    requires |src| == |dst| && forall k :: 0 <= k < |order| ==> order[k] < |src|
  {
    if order == [] then flag
    else
      var idx := order[|order| - 1];
      var before := Dispatch(src, dst, order[..|order| - 1], flag);
      if Reduce(src[idx], dst[idx]) != 0 then SetFlag(before) else before
  }

  lemma {:induction false} FlagMeaning(src: seq<Lane>, dst: seq<Lane>, order: seq<nat>)
    requires |src| == |dst| && forall k :: 0 <= k < |order| ==> order[k] < |src|
    ensures Dispatch(src, dst, order, 0) != 0 <==> exists k :: 0 <= k < |order| && src[order[k]] != dst[order[k]]
  {
    hide Reduce, SetFlag;
    if order != [] {
      var n := |order| - 1;
      FlagMeaning(src, dst, order[..n]);
      ReduceIsZeroOnEqual(src[order[n]], dst[order[n]]);
      FlagIsSet(Dispatch(src, dst, order[..n], 0));
      if k :| 0 <= k < n && src[order[k]] != dst[order[k]] {
        assert src[order[..n][k]] != dst[order[..n][k]];
      }
    }
  }

  /** Exactly the invocations of so many work groups, each once, in whatever order the GPU runs them. */
  ghost predicate Launched(order: seq<nat>, groups: nat) {
    && (forall k :: 0 <= k < |order| ==> order[k] < groups * LOCAL_X)
    && (forall g: nat, l: nat :: g < groups && l < LOCAL_X ==> GlobalId(g, l) in order)
    && (forall j, k :: 0 <= j < k < |order| ==> order[j] != order[k])
  }

  ghost predicate Complete(order: seq<nat>, lanes: nat) {
    (forall k :: 0 <= k < |order| ==> order[k] < lanes) && (forall lane: nat :: lane < lanes ==> lane in order)
  }

  /** Below 4 GiB the dispatch visits every lane of the buffer and nothing beyond it. */
  lemma {:induction false} DispatchCoversBuffer(aligned: nat, order: seq<nat>)
    requires aligned % PAGE == 0 && aligned < TWO32 && Launched(order, Groups(aligned))
    ensures Complete(order, aligned / LANE_BYTES)
  {
    DispatchMatchesBinding(aligned);
    hide Groups;
    forall lane: nat | lane < aligned / LANE_BYTES
      ensures lane in order
    {
      LaneHasOneInvocation(Groups(aligned), lane);
      assert GlobalId(lane / LOCAL_X, lane % LOCAL_X) in order;
    }
  }

  /** The lanes of a paged buffer below 4 GiB. */
  predicate Buffer(src: seq<Lane>, aligned: nat) {
    aligned % PAGE == 0 && aligned < TWO32 && LANE_BYTES * |src| == aligned
  }

  /** In any order of the launched invocations the result word ends non-zero exactly when the buffers differ. */
  lemma {:induction false} FlagShowsDifference(src: seq<Lane>, dst: seq<Lane>, aligned: nat, order: seq<nat>)
    requires Buffer(src, aligned) && |dst| == |src| && Launched(order, Groups(aligned))
    ensures (forall k :: 0 <= k < |order| ==> order[k] < |src|)
    ensures Dispatch(src, dst, order, 0) != 0 <==> src != dst
  {
    hide Groups, Launched;
    DispatchCoversBuffer(aligned, order);
    FlagMeaning(src, dst, order);
    if src != dst {
      var lane :| 0 <= lane < |src| && src[lane] != dst[lane];
      assert lane in order;
    }
  }

  // ----- the batch loop

  /** One batch as the pump meets it: the flags polled before it, the destination after its copies, the GPU's order. */
  datatype Batch = Batch(stop: bool, deviceError: bool, dst: seq<Lane>, order: seq<nat>)

  ghost predicate Runnable(src: seq<Lane>, aligned: nat, history: seq<Batch>) {
    && Buffer(src, aligned)
    && forall k :: 0 <= k < |history| ==> |history[k].dst| == |src| && Launched(history[k].order, Groups(aligned))
  }

  /** The number of batches whose destination differed from the source. */
  function BadBatches(src: seq<Lane>, history: seq<Batch>): (bad: nat)
    ensures bad <= |history|
  {
    if history == [] then 0
    else BadBatches(src, history[..|history| - 1]) + if history[|history| - 1].dst != src then 1 else 0
  }

  /** The batches whose destination differs. */
  function BadAmong(src: seq<Lane>, history: seq<Batch>, n: nat): (bad: set<nat>)
    requires n <= |history|
  {
    set k: nat | k < n && Differs(src, history[k])
  }

  predicate Differs(src: seq<Lane>, batch: Batch) {
    batch.dst != src
  }

  lemma {:induction false} BadBatchesCounts(src: seq<Lane>, history: seq<Batch>, n: nat)
    requires n <= |history|
    ensures BadBatches(src, history[..n]) == |BadAmong(src, history, n)|
  {
    hide BadAmong;
    if n == 0 {
      NoBadBatch(src, history);
    } else {
      BadBatchesCounts(src, history, n - 1);
      assert history[..n][..n - 1] == history[..n - 1];
      OneMoreBatch(src, history, n);
    }
  }

  lemma NoBadBatch(src: seq<Lane>, history: seq<Batch>)
    ensures BadAmong(src, history, 0) == {}
  {}

  lemma {:induction false} OneMoreBatch(src: seq<Lane>, history: seq<Batch>, n: nat)
    requires 0 < n <= |history|
    ensures |BadAmong(src, history, n)|
         == |BadAmong(src, history, n - 1)| + if Differs(src, history[n - 1]) then 1 else 0
  {
    hide Differs;
    var before, after := BadAmong(src, history, n - 1), BadAmong(src, history, n);
    if Differs(src, history[n - 1]) {
      assert after == before + {n - 1};
    } else {
      assert after == before;
    }
  }

  /** How many batches run before a poll ends the loop. */
  ghost predicate RunsFor(history: seq<Batch>, n: nat) {
    && n <= |history|
    && (forall k :: 0 <= k < n ==> !history[k].stop && !history[k].deviceError)
    && (n < |history| ==> history[n].stop || history[n].deviceError)
  }

  lemma {:induction false} BatchRuns(src: seq<Lane>, aligned: nat, history: seq<Batch>, k: nat)
    requires Runnable(src, aligned, history) && k < |history|
    ensures Buffer(src, aligned) && |history[k].dst| == |src| && Launched(history[k].order, Groups(aligned))
    ensures BadBatches(src, history[..k + 1]) == BadBatches(src, history[..k]) + if history[k].dst != src then 1 else 0
  {
    assert history[..k + 1][..k] == history[..k];
  }

  lemma {:induction false} NoBatches(src: seq<Lane>, history: seq<Batch>)
    ensures BadBatches(src, history[..0]) == 0
  {
    assert history[..0] == [];
  }

  /** One batch: the compare dispatch, then the counters. */
  method PumpBatch(src: seq<Lane>, aligned: nat, batch: Batch, traffic: nat, progress: Counter?, verified: Counter?,
      errors: Counter?, ghost was: (nat, nat, nat), ghost moved: nat, ghost n: nat, ghost bad: nat)
    requires Buffer(src, aligned) && |batch.dst| == |src| && Launched(batch.order, Groups(aligned))
    requires progress == null || (progress != verified && progress != errors)
    requires verified == null || verified != errors
    requires Counts(progress, was.0, moved) && Counts(verified, was.1, n) && Counts(errors, was.2, bad)
    modifies progress, verified, errors
    ensures Counts(progress, was.0, moved + traffic) && Counts(verified, was.1, n + 1)
    ensures Counts(errors, was.2, bad + if batch.dst != src then 1 else 0)
  {
    hide Dispatch, Launched, Groups, Counts;
    FlagShowsDifference(src, batch.dst, aligned, batch.order);
    var resultWord := Dispatch(src, batch.dst, batch.order, 0);
    AddProgress(progress, traffic, was.0, moved);
    AddProgress(verified, 1, was.1, n);
    if resultWord != 0 {
      AddProgress(errors, 1, was.2, bad);
    }
  }

  /** The loop of `pump_thread_entry`: batches verified, batches in error, bytes moved. */
  method PumpLoop(src: seq<Lane>, aligned: nat, history: seq<Batch>, progress: Counter?, verified: Counter?,
      errors: Counter?)
      returns (ghost n: nat)
    requires Runnable(src, aligned, history)
    requires progress == null || (progress != verified && progress != errors)
    requires verified == null || verified != errors
    requires ValueOf(progress) < TWO64 && ValueOf(verified) < TWO64 && ValueOf(errors) < TWO64
    modifies progress, verified, errors
    ensures RunsFor(history, n)
    ensures progress != null ==> progress.value == U64(old(progress.value) + n * (16 * aligned))
    ensures verified != null ==> verified.value == U64(old(verified.value) + n)
    ensures errors != null ==> errors.value == U64(old(errors.value) + BadBatches(src, history[..n]))
  {
    hide U64, Counts, BadBatches, Runnable, Moved;
    var perIteration := U64(aligned * 2);
    var traffic := U64(perIteration * BATCH);
    var k: nat := 0;
    n := 0;
    ghost var was := (ValueOf(progress), ValueOf(verified), ValueOf(errors));
    NoBatches(src, history);
    NothingMoved(traffic);
    CountsFrom(progress);
    CountsFrom(verified);
    CountsFrom(errors);
    while k < |history| && !history[k].stop && !history[k].deviceError
      invariant k == n <= |history|
      invariant forall i :: 0 <= i < k ==> !history[i].stop && !history[i].deviceError
      invariant Counts(progress, was.0, Moved(n, traffic))
      invariant Counts(verified, was.1, n)
      invariant Counts(errors, was.2, BadBatches(src, history[..n]))
    {
      BatchRuns(src, aligned, history, k);
      OneMoreTime(n, traffic);
      PumpBatch(src, aligned, history[k], traffic, progress, verified, errors, was, Moved(n, traffic), n,
        BadBatches(src, history[..k]));
      k := k + 1;
      n := n + 1;
    }
    if progress != null {
      CountsMeans(progress, was.0, Moved(n, traffic));
    }
    if verified != null {
      CountsMeans(verified, was.1, n);
    }
    if errors != null {
      CountsMeans(errors, was.2, BadBatches(src, history[..n]));
    }
    TotalTraffic(was.0, n, aligned);
  }

  lemma {:induction false} CountsFrom(c: Counter?)
    requires ValueOf(c) < TWO64
    ensures Counts(c, ValueOf(c), 0)
  {}

  lemma {:induction false} CountsMeans(c: Counter?, base: nat, n: nat)
    requires Counts(c, base, n) && c != null
    ensures c.value == U64(base + n)
  {}

  /** The bytes n batches move. */
  function Moved(n: nat, traffic: nat): nat {
    n * traffic
  }

  lemma NothingMoved(traffic: nat)
    ensures Moved(0, traffic) == 0
  {}

  lemma OneMoreTime(n: nat, x: nat)
    ensures Moved(n + 1, x) == Moved(n, x) + x
  {}

  /** Adding the wrapped traffic of a batch n times over is adding the whole traffic, modulo 2^64. */
  lemma {:induction false} TotalTraffic(was: nat, n: nat, aligned: nat)
    ensures U64(was + Moved(n, U64(U64(aligned * 2) * BATCH))) == U64(was + n * (16 * aligned))
  {
    hide U64;
    var x, y := 16 * aligned, U64(U64(aligned * 2) * BATCH);
    TimesBatch(aligned * 2);
    assert y == U64(x);
    if n > 0 {
      TotalTraffic(was, n - 1, aligned);
      OneMoreTime(n - 1, x);
      OneMoreTime(n - 1, y);
      U64Wrap(was + (n - 1) * y, y);
      U64Wrap(x, was + (n - 1) * y);
      U64Wrap(was + (n - 1) * y, x);
      U64Wrap(was + (n - 1) * x, x);
    }
  }

  lemma TimesBatch(x: nat)
    ensures U64(U64(x) * BATCH) == U64(x * BATCH)
  {
    var q := x / TWO64;
    assert x * BATCH == U64(x) * BATCH + TWO64 * (q * BATCH);
    ModUnique(x * BATCH, U64(U64(x) * BATCH), q * BATCH + (U64(x) * BATCH) / TWO64, TWO64);
  }

  // ----- the source pattern

  ghost predicate Seeded(a: array<Word>, seed: Word, n: nat)
    reads a
  {
    n <= a.Length && forall k: nat :: k < n ==> a[k] == Xor(FromNat(8 * k), seed)
  }

  /** The vector offsets of words k and k + 1. */
  function FillOffsets(k: nat): Counters {
    Counters(U64(8 * k), U64(8 * k + 8))
  }

  method FillVector(a: array<Word>, seed: Word) returns (k: nat)
    requires a.Length <= MAX_WORDS
    modifies a
    ensures Seeded(a, seed, k)
  {
    var off01, off23 := Counters(0, 8), Counters(16, 24);
    hide Seeded, VAdd;
    k := 0;
    NothingSeeded(a, seed);
    while k + 4 <= a.Length
      invariant off01 == FillOffsets(k) && off23 == FillOffsets(k + 2)
      invariant Seeded(a, seed, k)
    {
      FillFour(a, seed, k, off01, off23);
      NextOffsets(k);
      NextOffsets(k + 2);
      off01, off23 := VAdd(off01, 32), VAdd(off23, 32);
      k := k + 4;
    }
  }

  lemma NextOffsets(k: nat)
    ensures VAdd(FillOffsets(k), 32) == FillOffsets(k + 4)
  {
    U64Wrap(8 * k, 32);
    U64Wrap(8 * k + 8, 32);
  }

  lemma {:induction false} NothingSeeded(a: array<Word>, seed: Word)
    ensures Seeded(a, seed, 0)
  {}

  method FillFour(a: array<Word>, seed: Word, k: nat, off01: Counters, off23: Counters)
    requires k + 4 <= a.Length <= MAX_WORDS && Seeded(a, seed, k)
    requires off01 == FillOffsets(k) && off23 == FillOffsets(k + 2)
    modifies a
    ensures Seeded(a, seed, k + 4)
  {
    hide FromNat, Xor;
    assert 8 * (k + 1) == 8 * k + 8 && 8 * (k + 2) == 8 * k + 16 && 8 * (k + 3) == 8 * k + 24;
    var v01, v23 := VMap(MaskOp(seed), off01), VMap(MaskOp(seed), off23);
    a[k], a[k + 1] := v01.a, v01.b;
    a[k + 2], a[k + 3] := v23.a, v23.b;
  }

  /** `pump_fill_src_pattern` */
  method FillSource(a: array<Word>, seed: Word, neon: bool)
    requires a.Length <= MAX_WORDS
    modifies a
    ensures Seeded(a, seed, a.Length)
  {
    hide Xor, FromNat;
    var k: nat := 0;
    if neon {
      k := FillVector(a, seed);
    }
    while k < a.Length
      invariant Seeded(a, seed, k)
    {
      a[k] := Xor(FromNat(U64(k * 8)), seed);
      k := k + 1;
    }
  }

  /** The pump's source is the ADDRESS pattern of pass 0, so no two of its words agree. */
  lemma {:induction false} SourceIsAddressPattern(seed: Word, k: nat)
    requires k < MAX_WORDS
    ensures Xor(FromNat(8 * k), seed) == Pattern(seed, Address, 0)(k)
    ensures forall j: nat :: j < MAX_WORDS && Xor(FromNat(8 * j), seed) == Xor(FromNat(8 * k), seed) ==> j == k
  {
    hide Pattern;
    PassZero(seed, k);
    forall j: nat | j < MAX_WORDS && Xor(FromNat(8 * j), seed) == Xor(FromNat(8 * k), seed)
      ensures j == k
    {
      PassZero(seed, j);
      AddressInjective(seed, 0, j, k);
    }
  }

  lemma {:induction false} PassZero(seed: Word, k: nat)
    ensures Xor(FromNat(8 * k), seed) == Pattern(seed, Address, 0)(k)
  {
    assert FromNat(0) == 0;
    XorUnit(Xor(FromNat(8 * k), seed));
  }
}
