# NX-MemTest engine: model and proofs

NX-MemTest fills a large arena with deterministic patterns, reads it back and reports what changed. This
project models the portable engine (`source/core`) and the session logic around it (`source/nx`) in Dafny 4.11
and proves what the tester guarantees: that its fast loops agree with the one-line specification of every
phase, that no interleaving of its workers raises a false alarm, and exactly which faults end up in a report.

`dafny verify dfyconfig.toml` checks everything.

## How it is built

- `Words`, `Patterns`: 64-bit words, and the specification `ExpectedValue` of all nine phases. Bitwise work is on
  `bv64`; sums and products are on naturals reduced modulo 2^64, joined by `FromNat`/`ToNat`.
- `PatternLaws`: what those words are, bit by bit and byte by byte, and the pressure arithmetic line by line.
- `Memory`: the arena as the hardware under test. A `Fabric` wires every word to a physical cell and may force
  bits: the identity wiring without forced bits is fault-free memory, shared cells are address-line faults,
  forced bits are stuck-at faults. The class `Memory` offers word and byte accesses over it.
- `ChunkWrite`, `ChunkVerify`: the chunk writers and checkers of `runner.c`, loop by loop, in both the NEON-lane
  and the scalar form (the parameter `neon`), over the mutable `Memory` and `Report`.
- `Machine`: the runner as a state machine. A step is one access to one word (a store, a fold read, a read of the
  first verify stage, a read of the walk) or one poll of the stop flag. `Exec` runs any interleaving of any number of
  workers, with bit upsets striking between any two accesses.
- `Tracking`: the invariant behind everything else, kept by every interleaving: each cell holds the value its owner
  last stored, up to the upsets (`drift`) since. `seen` remembers the drift each read met.
- `Findings`: the log of every worker, in every reachable state, as a function of what its reads met.
- `Detection`, `StuckBits`, `Upsets`, `Aliases`: what follows for fault-free memory, the debug injection, stuck bits, one
  transient upset at any moment, and shared cells.
- `Checksum`, `Progress`, `Liveness`: the Extreme checksum and the byte counters in every reachable state, and that a
  crew nobody stops finishes.
- `Crew`: the jobs the runner derives from its configuration; slices partition the arena for every worker count.
- `Solo`, `Reduction`: a worker alone, chunk by chunk and word by word, comes to the same end, and each worker of any
  interleaving ends as it would alone.
- `Runner`, `Passes`: `nxmt_runner_run_pass` statement by statement, proved to compute the lone run of the state machine
  (`PassEnd`); then its results for one call.
- `PassLaws`: what a pass of each mode does, naming its phases: errors, contents, bytes and polls.
- `Arena`, `Report`: the arithmetic of `arena.c` and the reports of `report.c`.
- `Session`: the pass loop, in which every worker and the fallback are calls of the runner, and the final status.
- `Platform`, `Pump`: the override heap and the carve, and the GPU pump.
- `Program`: heap, arena, carve and session composed.

The main results: `ChunkWrite.WriteChunk`, `ChunkVerify.VerifyChunk`, `Tracking.ExecTracks`, `Findings.LogIsExplained`,
`Upsets.UpsetIsReported`, `Upsets.UpsetMovesChecksum`, `Crews.WorkerCountDoesNotMatter`, `StuckBits.StuckBitsAreReported`,
`Aliases.AliasesAreCounted`, `Checksum.ChecksumOfFinishedPass`, `Liveness.CrewFinishes`, `Solo.StridesAreSteps`,
`Reduction.EveryWorkerRunsAlone`, `Crews.CrewProgress`, `Runner.RunPass`, `Sessions.Session.RunSession`,
`PassLaws.PassErrors`, `Programs.RunProgram`.

## Where code and documentation differ

The model follows the code.

- `docs/memory-test-algorithm.md` says the Extreme checksum is non-zero and confirms that the CPU work was done. A
  clean finished pass always ends on seed xor worker id, where it started (`Passes.CleanPassPasses`), the same as in a
  mode that does no such work. That is zero exactly when the seed equals the worker id (`Passes.CleanChecksumIsZero`;
  seed 0 and worker 0 in `Passes.ChecksumCanBeZero`). It also misses every stuck bit
  (`Checksum.ChecksumMissesStuckBits`).
- Log and checksum watch different windows. An upset is logged exactly when it strikes between the store of its word and
  the first verify read (`Upsets.UpsetIsReported`); it moves the checksum exactly when it strikes between the two fold
  reads (`Upsets.UpsetMovesChecksum`). So one that falls between a chunk's verify and its fold moves the checksum with
  nothing logged, and one that falls between a chunk's stores and its fold is logged with the checksum unmoved.
- The same document gives the runtime heap reserve as 16 to 32 MiB. That holds exactly for heaps of 32 MiB and more
  (`Arenas.ReserveIsAsDocumented`): below 4 MiB the code reserves nothing, from there to 64 MiB the paged half of the
  heap, so a heap of 8 MiB gets 4 MiB (`Arenas.SmallHeapReserve`).
- It lists five phases with a two-stage verify; the code has it in every phase but WALKING.
- Quick Check does not detect every stuck bit: `Passes.QuickCanMissAStuckBit` gives one it misses, and
  `StuckBits.PassIsSilentIffMasked` says exactly when a pass of any mode stays silent.
- The pump's size check wraps: `Pumps.SizeCheckIsExact` says it is right exactly while the required size stays below
  2^64, `Pumps.WrappedSizeIsAccepted` gives a size it wrongly accepts. The size the session uses is safe
  (`Pumps.CarvedRegionsAreSafe`).
- The pump binds its buffers with sizes cut to 32 bits and cuts the lane count to 32 bits as well. The two agree exactly
  when the buffer's multiple of 4 GiB is itself a multiple of 16 (`Pumps.DispatchMatchesBinding`); one page beyond 4 GiB
  the dispatch overruns its binding (`Pumps.DispatchCanOverrun`). Below 4 GiB every lane is visited and none beyond
  (`Pumps.DispatchCoversBuffer`).
- A report whose count has wrapped to zero is dropped when merged: `Reports.MergeIsRightIff` says exactly when the merge
  is right, `Reports.MergeCanDropALog` gives a log it loses. A pass never gets there (`Runner.PassLogFits`).

## Model

| member | source | states |
|---|---|---|
| Patterns.AddressInjective | source/core/patterns.c:24-25 | within an arena no two words share an ADDRESS value, for any seed and pass |
| Patterns.RandomInjective | source/core/patterns.c:26-27 | the same for RANDOM, through byte reversal |
| Patterns.PatternForms | source/core/patterns.c:24-55 | seed and pass folded into one mask, as the runner does, give the specified ADDRESS, RANDOM and STREAM words |
| PatternLaws.FixedPhases | source/core/patterns.c:18-23 | FIXED_A sets exactly the odd bits, FIXED_5 the even ones, CHECKER takes turns with them by word index |
| PatternLaws.BitSpreadPhase | source/core/patterns.c:42-47 | BITSPREAD sets the bits 2, 5, ..., 62 where index plus pass is even, and exactly the others where it is odd |
| PatternLaws.WalkingPhase | source/core/patterns.c:28-31 | a WALKING word is two to the power of index plus pass, modulo 64 |
| PatternLaws.SeedAndPass | source/core/patterns.c:24-55 | seed and pass mask ADDRESS, RANDOM and STREAM: seed xor pass times the phase's constant, modulo 2^64 |
| PatternLaws.OffsetPhases | source/core/patterns.c:24-55 | unmasked, ADDRESS is the byte offset and STREAM the offset modulo 8 KiB |
| PatternLaws.RandomPhase | source/core/patterns.c:26-27 | unmasked, byte j of RANDOM is byte 7 - j of the word index |
| PatternLaws.NarrowPhase | source/core/patterns.c:32-40 | byte j of NARROW is 8 (index + pass) modulo 256, plus j, xor byte j of the seed |
| PatternLaws.Mix64Lines | source/core/patterns.c:7-12 | the mixing function is its four lines, constants and shifts included |
| PatternLaws.PressureIsSixtyFourRounds | source/core/runner.c:106-114 | the pressure of a word is sixty-four rounds of mixing value plus round number and the shifts by 13, 7 and 17 |
| Patterns.OpInverts | source/core/patterns.c:7-12 | adding a constant, multiplying by a mix constant and a xorshift each have a two-sided inverse on 64-bit words |
| Patterns.PressureBijective | source/core/runner.c:106-114 | sixty-four pressure rounds are a permutation of the 64-bit words |
| Patterns.ExtremeCpuPressure | source/core/runner.c:106-114 | the loop computes state xor that permutation of the value |
| Words.MulU64Inverse | source/core/patterns.c:9-10 | multiplication modulo 2^64 is undone by the modular inverse of the constant |
| Words.XorShiftInverts | source/core/runner.c:109-111 | every xorshift is undone, on both sides, by the doubling inverse |
| Words.AddWithoutCarry | source/core/patterns.c:32-40 | below its low zero bits a sum is an exclusive or, the no-carry argument of NARROW |
| Memories.NarrowByteValue | source/core/patterns.c:32-40 | the byte the narrow loop stores at position j is byte j of the specified NARROW word |
| Memories.StoreRangeHit | source/core/runner.c:152-335 | after a range is written a word holds its own value unless a later word shares its cell |
| Memories.StoreRangeFrame | source/core/runner.c:152-335 | writing a range touches only the cells the range is wired to |
| ChunkWrite.Fill | source/core/runner.c:160-165 | the fixed phases store their constant to each word of the chunk, in order |
| ChunkWrite.WriteAlternating | source/core/runner.c:166-185 | CHECKER and BITSPREAD, lanes and scalar tail, store the alternating pair from the right parity on |
| ChunkWrite.WriteCounted | source/core/runner.c:186-281 | ADDRESS, RANDOM and WALKING counters, eight words an iteration in lanes and one at a time, store the specified words |
| ChunkWrite.WalkLaneIsWalk | source/core/runner.c:247-281 | the lane form of WALKING, a signed mask and a lane shift, gives the scalar form's word for every counter |
| ChunkWrite.Rev64IsBswap | source/core/runner.c:217-246 | the vector unit's byte reversal is the scalar builtin's |
| ChunkWrite.WriteNarrow | source/core/runner.c:282-296 | the byte loop, read back as words, stores the closed form of NARROW |
| ChunkWrite.FillStreamStamp | source/core/runner.c:53-71 | both forms fill the stamp with one period of STREAM |
| ChunkWrite.CopyWords | source/core/runner.c:77-104 | the sixteen-word copy loop and its tail copy every word once, in order |
| ChunkWrite.TileStamp | source/core/runner.c:317-333 | the wrap-around copy terminates and gives position k the stamp word (start + k) mod 1024 |
| ChunkWrite.WriteChunk | source/core/runner.c:152-335 | for all nine phases, lanes or scalar, any start, length, seed and pass: the chunk receives exactly the specified words in ascending order and no other cell changes |
| ChunkVerify.FixedDirty | source/core/runner.c:337-343 | the OR of differences is zero exactly when every word is the target |
| ChunkVerify.AlternatingDirty | source/core/runner.c:372-394 | the same for the alternating phases |
| ChunkVerify.AddressDirtyVector | source/core/runner.c:395-431 | the lane accumulators of ADDRESS are zero exactly when the words seen are clean |
| ChunkVerify.RandomDirtyVector | source/core/runner.c:432-465 | the same for RANDOM |
| ChunkVerify.NarrowDirty | source/core/runner.c:478-503 | the same for NARROW, from the closed form |
| ChunkVerify.StreamDirty | source/core/runner.c:526-557 | the block comparison with early exit agrees with comparing the whole chunk |
| ChunkVerify.ChunkDirty | source/core/runner.c:345-559 | stage one, in every phase but WALKING which has none, reports dirt exactly when some word differs from the specification |
| ChunkVerify.WalkValueIsExpected | source/core/runner.c:345-559 | the expected word each walk recomputes, with its wrapping offsets, is the specified one |
| ChunkVerify.VerifyChunk | source/core/runner.c:345-559 | the report ends as if each mismatching word of the chunk, and no other, had been recorded in ascending order; each record names mode, phase, seed, pass, worker and offset, the specified word as expected and what was read as actual |
| Reports.Report.Init | source/core/report.c:3-9 | an initialised report is empty |
| Reports.Report.RecordError | source/core/report.c:11-47 | every field of the report after one error, wrapping counter included |
| Reports.Report.Merge | source/core/report.c:49-70 | the whole destination after a merge, early return included |
| Reports.RecordingDigests | source/core/report.c:11-47 | recording a log leaves first error, count, lowest and highest offset and OR of differences of that log |
| Reports.OffsetsAreBounds | source/core/report.c:37-42 | lowest and highest offset bound all errors and are attained |
| Reports.DiffBits | source/core/report.c:21-46 | a bit of the difference OR is set exactly when some error of the log read that bit other than expected |
| Reports.MergeIsConcat | source/core/report.c:49-70 | merging the reports of two logs gives the report of their concatenation, for every merged log whose 64-bit count is not zero although it holds errors |
| Reports.MergeIsRightIff | source/core/report.c:49-70 | exactly when it does: the merged count has not wrapped to zero, or the destination already has all the dropped log would bring |
| Reports.MergeCanDropALog | source/core/report.c:50-52 | 2^64 errors merged into an empty report leave it empty |
| Arenas.ArenaIsLargest | source/core/arena.c:63-86 | the arena is the largest page-aligned part of its range whenever the range does not overflow, in whole words |
| Arenas.RuntimeHeapReserve | source/core/arena.c:131-142 | page-aligned, zero below 4 MiB, otherwise at least 2 MiB and less than the heap |
| Arenas.ReserveIsAsDocumented | source/core/arena.c:131-142 | between 16 and 32 MiB exactly for heaps from 32 MiB on; the value in each of the four ranges |
| Arenas.SmallHeapReserve | source/core/arena.c:131-142 | a heap of 8 MiB gets 4 MiB, less than documented |
| Arenas.SplitPartitions | source/core/arena.c:164-181 | slices are disjoint, cover the arena and differ by at most one word |
| Arenas.SplitOrdered | source/core/arena.c:164-181 | a slice ends before any later one starts, and all end within the arena |
| Arenas.SplitFavoursFirst | source/core/arena.c:174-181 | worker i has (words + workers - 1 - i) / workers words, so the words left over go one each to the first workers |
| Arenas.ScaledRemainderTerm | source/core/arena.c:24-61 | the loop is the exact floor for every 64-bit scale; its saturating return is dead |
| Arenas.PercentMilli | source/core/arena.c:144-162 | min(2^64 - 1, floor(100000 n / d)) for all 64-bit operands, 0 for d = 0 |
| Tracking.StepFrame | source/core/runner.c:561-632 | an access of a worker changes no cell outside its slice |
| Tracking.StepHolds | source/core/runner.c:561-632 | an access keeps every word of the slice at its last stored value up to drift, the injection included, whatever has drifted and whatever is stuck |
| Tracking.ExecTracks | source/core/runner.c:561-686 | in every reachable state of every interleaving, under any upsets and stuck bits and with or without injection, every cell holds its owner's last value up to the upsets since |
| Findings.LogIsExplained | source/core/runner.c:599-632 | in every reachable state, under any upsets and stuck bits and with or without injection, each log is exactly this: a chunk is walked if a first-stage read was wrong, or the phase is WALKING, and each walk read that is wrong is recorded in order |
| Findings.SteadyPhase | source/core/runner.c:345-559 | where no upset falls between the stages of a chunk, word w of a phase is logged exactly when its value with its drift, as sensed through the stuck bits, differs from the specified one |
| Findings.LogsAreGenuine | source/core/runner.c:345-559 | in every reachable state each record is of the worker's configuration and one of its phases, gives a word of its slice, as expected the word of the pattern and as actual what the walk read, and these differ |
| PassLaws.CrewRecords | source/core/runner.c:345-559 | so in a crew, under any upsets and stuck bits, each worker logs only words of its own slice with the specified word of a phase of its mode as expected |
| Detection.LogIsPredicted | source/core/runner.c:599-632 | without upsets each worker's log depends only on its job, the stuck bits and its program counter: no interleaving changes it |
| Detection.NoFalseAlarms | source/core/runner.c:561-686 | on fault-free memory no worker ever logs an error, at any point of any interleaving and stop schedule |
| Detection.FinalContents | source/core/runner.c:634-686 | a pass whose workers all finished leaves the last phase's value in every word, whatever the split and the interleaving |
| Liveness.CrewFinishes | source/core/runner.c:634-686 | workers no poll stops all finish once each has had a stated number of turns, in any interleaving and under any upsets |
| Liveness.UnstoppedContents | source/core/runner.c:634-686 | such a crew, without upsets, leaves the last phase's value in every word |
| Detection.InjectionIsReported | source/core/runner.c:593-595 | the injected bit costs one error per phase at the head of the slice, and its whole report |
| StuckBits.StuckBitsAreReported | source/core/runner.c:634-686 | after FIXED_A and FIXED_5 the report's difference OR is the OR of all stuck bits of the slice, the log is empty exactly when there are none, and the extreme offsets are the first and last stuck word |
| StuckBits.ShowsInReport | source/core/report.c:11-47 | a log with errors at the stuck words of a range and nowhere else gives a report with their bits, first and last offset, and is empty exactly when none is stuck |
| StuckBits.PassIsSilentIffMasked | source/core/runner.c:25-45 | in any mode a finished pass logs nothing exactly when every phase's words survive the stuck bits |
| Upsets.UpsetIsReported | source/core/runner.c:561-632 | one upset between any two word accesses of any interleaving: a worker that finishes has logged it once, with its word, phase and bits, exactly when it owns the word, had stored it in the phase and not yet read it in the first verify stage (in WALKING: the walk); otherwise its log is empty |
| Upsets.UpsetIsLoggedOnce | source/core/runner.c:561-632 | in every reachable state, stopped or running workers included, a non-empty log is exactly that one record, and only of an upset in that window |
| Upsets.UpsetMovesChecksum | source/core/runner.c:583-626 | the same upset moves a finished worker's Extreme checksum exactly when it strikes between the write-half fold and the verify-half fold of its word |
| Aliases.ReadsLastWriter | source/core/runner.c:152-335 | on any wiring a written word reads as what the last word sharing its cell stored |
| Aliases.ErrorsCountOverwritten | source/core/runner.c:395-465 | for an injective pattern errors plus distinct cells equal the number of words |
| Aliases.AliasesAreCounted | source/core/runner.c:665-682 | without stuck bits and for every wiring, each ADDRESS or RANDOM phase of an uninterrupted pass adds exactly words minus distinct cells errors |
| Aliases.AliasedPassFails | source/core/runner.c:634-686 | without stuck bits and on any wiring, an uninterrupted pass of any mode fails exactly when two words of its slice share a cell |
| Aliases.ConstantPhaseMissesAliases | source/core/runner.c:160-165 | a constant phase sees no aliasing at all |
| Checksum.ExecBalance | source/core/runner.c:583-626 | in every reachable state, under any upsets and stuck bits and with or without injection, the checksum is seed xor worker id plus the pressure of what each fold read so far met |
| Checksum.ChecksumOfFinishedPass | source/core/runner.c:659-684 | a finished Extreme pass ends on the base if the two folds of every word and phase read the same, and off the base if they differ for exactly one |
| Checksum.ChecksumMissesStuckBits | source/core/runner.c:622-626 | whatever bits are stuck, the checksum of a finished pass is the fault-free one |
| Progress.ExecAccounts | source/core/runner.c:676-681 | at every point the counters are the halves completed, and progress is written plus verified plus eight bytes per word of the open half |
| Progress.ProgressReachesGoal | source/core/runner.c:146-150 | total progress never exceeds the total work, and equals it exactly when every non-empty slice is finished |
| Crews.CrewIsTeam | source/core/runner.c:657-662 | the slices of a crew of any size are disjoint and cover the arena |
| Crews.SlicesInOrder | source/core/runner.c:657-662 | the workers' slices run in worker order from the first word to the last, the longer ones first |
| Crews.WorkerCountDoesNotMatter | source/core/runner.c:634-686 | on fault-free memory a crew of any size, interleaved in any way, logs nothing; if never stopped and given its turns it finishes, leaving the specified word of the last phase everywhere |
| Crews.CrewProgress | source/nx/main.c:968-972 | the crew's progress stays within phases * 2 * arena bytes and reaches it exactly when all non-empty slices are finished |
| Solo.RunToEnd | source/core/runner.c:634-686 | every lone run ends, finished or stopped, under any stop schedule |
| Solo.UninterruptedFinishes | source/core/runner.c:634-686 | a run no poll stops finishes all its phases |
| Solo.FinishesUnlessStopped | source/core/runner.c:561-632 | from any poll on, a lone run finishes exactly if none of the polls still to come tells it to stop |
| Solo.StridesAreSteps | source/core/runner.c:561-632 | run chunk by chunk, as the runner's loops are written, or one word access at a time, a worker comes to the same end |
| Solo.LoneRunIsARun | source/core/runner.c:634-686 | from any reachable point of a one-worker team, running on alone is one of the interleavings |
| Reduction.EveryWorkerRunsAlone | source/core/runner.c:634-686 | in any interleaving without upsets, a worker that has ended did so as it would have alone on the arena as the pass found it, and left its slice so |
| Solo.LoneRunStaysAlone | source/core/runner.c:665-682 | on any wiring a lone worker's memory and log are the composition of whole-slice writes and verifies |
| Runner.AddProgress | source/core/runner.c:146-150 | the shared counter advances by the delta modulo 2^64, if there is one |
| Runner.WritePhase | source/core/runner.c:561-597 | the write loop is the write half of the planned run, polls, injection, counter and checksum included |
| Runner.VerifyPhase | source/core/runner.c:599-632 | the verify loop is the verify half of the planned run and records exactly its errors |
| Runner.RunPhase | source/core/runner.c:665-682 | one turn of the phase loop, with its statistics |
| Runner.AbortStatus | source/core/runner.c:142-144 | a stopped pass returns FAIL exactly when it logged an error, whatever count the report started with |
| Runner.RunPass | source/core/runner.c:634-686 | UNSUPPORTED exactly for the listed bad arguments, with memory, report and counter untouched and cleared statistics; otherwise memory, report, every statistic, counter and status are those of the state machine's run: FAIL for a new error, else PASS if finished, ABORTED if stopped |
| Runner.PassLogFits | source/core/runner.c:634-686 | a pass logs fewer than 2^64 errors |
| PassLaws.PassErrors | source/core/runner.c:25-51 | a finished pass has run FIXED_A, ADDRESS, RANDOM in Quick Check and all phases but NARROW in the load modes: in each of these it logged exactly the words that do not read back what is specified, in table order and then by offset, and nothing else |
| PassLaws.PassLeaves | source/core/runner.c:665-682 | a finished pass leaves RANDOM in every word of its slice in Quick Check, WALKING in the load modes, over any stuck bits, and shows that phase |
| PassLaws.PassBytes | source/core/runner.c:665-682 | it has written and verified its slice three times in Quick Check and eight times in the load modes |
| PassLaws.PassPolls | source/core/runner.c:561-632 | it finishes exactly if none of its polls reads a stop: one before each phase, one before each MiB of either half |
| Passes.PassIsAnInterleaving | source/core/runner.c:634-686 | a call of the runner is an interleaving of a one-worker team, so all results on interleavings apply to it |
| Passes.CleanPassPasses | source/core/runner.c:142-144 | fault-free memory gives PASS, or ABORTED if stopped, with an empty log and, when finished, the checksum it started from |
| Passes.CleanChecksumIsZero | source/core/runner.c:659-684 | the checksum of a finished fault-free pass is zero exactly when the seed equals the worker id |
| Passes.FinishedLog | source/core/runner.c:634-686 | a finished pass of any mode has logged exactly the words of its slice that each phase reads back wrong through the stuck bits |
| Passes.ChecksumCanBeZero | source/core/runner.c:659-684 | an uninterrupted Extreme pass with seed 0 passes with checksum zero |
| Passes.StuckPassFails | source/core/runner.c:634-686 | an uninterrupted Memory Load or Extreme pass returns FAIL exactly when a word of its slice has a stuck bit, and its report says which bits and where |
| Passes.InjectedPassFails | source/core/runner.c:593-595 | with the injection an uninterrupted pass fails with one error per phase, all of bit 8 at the head of the slice, the first in FIXED_A |
| Passes.QuickCanMissAStuckBit | source/core/runner.c:25-29 | a stuck bit with which an uninterrupted Quick Check returns PASS |
| Platforms.Platform.InitOverrideHeap | source/nx/platform_nx.c:38-60 | for every heap inside the address space, runtime heap and arena are paged, adjacent and together the largest paged part, from 4 MiB on; below that all is runtime heap; the program aborts exactly when there is no whole page |
| Platforms.LargestPagedContainsAll | source/nx/platform_nx.c:42-47 | that part contains every other page-aligned part of the heap |
| Platforms.ArenaKeepsPagedRange | source/nx/main.c:831 | the arena made from it loses nothing |
| Platforms.CarvePump | source/nx/main.c:890-920 | CPU arena and pump region tile the arena, the carve happens exactly under its four conditions and is undone when the pump fails, and at least one worker and one page remain |
| Pumps.SizeCheckIsExact | source/nx/gpu_pump.c:358-361 | for every size, zero included, the buffers really fit exactly when the check accepts and the required size is below 2^64 |
| Pumps.AcceptedRegionsFit | source/nx/gpu_pump.c:178-183 | accepted regions lie in the storage one after the other, 64, 16 and 4 KiB and the two buffers, disjoint, paged and large enough |
| Pumps.WrappedSizeIsAccepted | source/nx/gpu_pump.c:358-361 | a size that wraps is accepted although its regions do not fit |
| Pumps.CarvedRegionsAreSafe | source/nx/main.c:899-919 | with the session's sizes all regions fit in the carved tail, disjoint from each other and from the CPU arena |
| Pumps.DispatchMatchesBinding | source/nx/gpu_pump.c:255-274 | for paged buffers the dispatch has one invocation per lane of the bound buffer exactly when the buffer's count of whole 4 GiB is a multiple of 16; below 4 GiB nothing is cut |
| Pumps.DispatchCanOverrun | source/nx/gpu_pump.c:255-274 | one page beyond 4 GiB the dispatch reaches past the single page that is bound |
| Pumps.DispatchCoversBuffer | source/nx/gpu_pump.c:269-274 | below 4 GiB the launched invocations, in any order, visit every lane of the buffer and nothing else |
| Pumps.FlagShowsDifference | source/nx/gpu_verify.glsl:29-36 | for buffers below 4 GiB and any order of the launched invocations the result word ends non-zero exactly when the buffers differ |
| Pumps.PumpLoop | source/nx/gpu_pump.c:322-342 | over launched invocations the counters hold the batches run, the batches whose destination differed, and sixteen times the buffer per batch, modulo 2^64 |
| Pumps.BadBatchesCounts | source/nx/gpu_pump.c:322-342 | the error count is the number of batches whose destination differs from the source |
| Pumps.FillSource | source/nx/gpu_pump.c:140-160 | both forms of the fill give word k the value 8k xor seed |
| Pumps.SourceIsAddressPattern | source/nx/gpu_pump.c:140-160 | the source is the ADDRESS pattern of pass 0, so its words are pairwise different |
| Sessions.CombineAllMeaning | source/nx/main.c:314-325 | whatever the order, one failed worker fails the combination and otherwise one aborted worker aborts it |
| Sessions.WorkerContext.Enter | source/nx/main.c:307-312 | a worker thread's entry: on a usable arena the context ends with the report, statistics and status of the runner's pass |
| Sessions.Session.MergeContext | source/nx/main.c:348-362 | report, each total, status and completed count after merging one worker |
| Sessions.Session.PlayRound | source/nx/main.c:1144-1156 | every started worker ends as the runner's pass on the arena the round found, and is merged in worker order |
| Sessions.InterleavedRound | source/nx/main.c:995-1020 | every upset-free interleaving of the crew whose started workers have ended is such a round |
| Sessions.Session.RunRounds | source/nx/main.c:975-1168 | the pass loop runs exactly the rounds that are wanted (no error yet, no stop, timed) and come about (time left, threads launched), merges them in pass-then-worker order, and falls back exactly when threads fail |
| Sessions.Session.RunFallback | source/nx/main.c:1171-1182 | the fallback is one worker over the whole arena that finishes: it leaves the last phase of its pass in every word, writes and verifies all of them once a phase, and in a load mode logs exactly the stuck words |
| Sessions.RoundsPlayed | source/nx/main.c:975-1168 | each round played had time, all its threads created and one started; after an error, stop or timeout, or untimed, none follows; and none is left out for another reason |
| Sessions.Session.Conclude | source/nx/main.c:1195-1213 | a GPU error fails the session, running out of time does not abort it |
| Sessions.Session.RunSession | source/nx/main.c:975-1213 | the report is that of all merged runner passes, fallback included, in pass-then-worker order; FAIL exactly when a merged log or the GPU has an error, ABORTED exactly when instead the user interrupted an unfinished worker, never UNSUPPORTED; fault-free memory merges no error; a load mode whose first round runs uninterrupted, or that falls back, fails exactly for a stuck bit or a GPU error and reports all stuck bits of the arena; the last finished round, or the fallback, leaves its last phase in every word |
| Sessions.UsableArenaIsSupported | source/core/runner.c:648-656 | on a usable arena every worker's and the fallback's configuration passes the runner's checks |
| Sessions.HealthySession | source/nx/main.c:975-1182 | on fault-free memory a session of any rounds, with or without the fallback, merges no error |
| Sessions.CrewShowsStuck | source/core/runner.c:657-662 | the slices of a crew of any size together show exactly the stuck words of the arena |
| Sessions.LoadedSession | source/nx/main.c:975-1182 | a Memory Load or Extreme session whose first round runs uninterrupted merges exactly that round's errors: difference OR, first and last offset are those of all stuck bits of the arena, and there are errors exactly when there are such bits |
| Sessions.SessionBytes | source/nx/main.c:348-362 | a session whose workers all ran has written and verified the whole arena once a phase in every pass, fallback included |
| Programs.Prepare | source/nx/platform_nx.c:30-60 | from any heap inside the address space the runner gets an arena it accepts: the paged part of the heap but for the reserve and the pump's region, unless there is no page or less than 4 MiB |
| Programs.RunProgram | source/nx/main.c:831-1213 | heap, arena, carve and session in a row: no worker is ever refused, FAIL only for a stuck bit among the CPU workers' addresses or an error of the active pump, and a load mode that gets through its first round fails exactly then, with all stuck bits in its report |

## Left out

- The text interface, menus, pad input and report formatting; input enters as the events that set the stop flag.
- File logging and boot markers; deko3d and libnx calls, shader loading and teardown: only sizes, offsets, flags and counters are modelled.
- `source/nx/cpu_filler.c`, `source/nx/gpu_bench.c`, `source/core/startup.c`, the memory-total selection and seed helpers: no checkable result, or unused by the runner.
- Cache, volatile and memory-order effects: an access to a word is atomic, and the stop flag is an arbitrary sequence of booleans. The eight byte stores of a NARROW word, and the load and store of the injection, are one access each.
- The first verify stage of STREAM stops at the first unequal block; the state machine lets it read on to the end of the chunk, which matters only for an upset that falls in between.
- The cells of the arena are a sequence held by the class `Memory`, reassigned by each store, because a word's cell is found through the wiring under test.
- The narrow byte loop is written word by word with its eight byte stores spelled out by index; the order of stores is the same.
- The unknown-phase fallback value of the specification: no phase table contains such a phase.
- The session's history of rounds is finite and its end is taken as the end of the session. Its workers are run to their ends one after the other, which `Sessions.InterleavedRound` shows to be all that interleaving can give; no upsets strike, stuck bits stay, and the arena is not aliased while a session runs.
- Runs of several workers over aliased memory: address-line faults are counted for one worker's slice.
- Faults beyond these: upsets flip stored bits and stuck bits are fixed for a pass; coupling between cells is not modelled.
