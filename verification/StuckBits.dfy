/**
 Stuck-at faults. FIXED_A and FIXED_5 drive every bit both ways, so a completed Memory Load or
 Extreme pass reports exactly the stuck bits of the slice, wherever they are.
 */
module StuckBits {
  import opened Words
  import opened Patterns
  import opened Reports
  import opened Memories
  import opened Machine
  import opened Detection

  /** The bits of word w that do not follow what is stored. */
  function StuckAt(fab: Fabric, w: nat): Word
    requires fab.Valid() && w < |fab.wires|
  {
    Or(fab.stuckLow[w], fab.stuckHigh[w])
  }

  /** All stuck bits of the words of [lo, hi), together. */
  function StuckIn(fab: Fabric, lo: nat, hi: nat): Word
    requires fab.Valid() && lo <= hi <= |fab.wires|
    decreases hi
  {
    if hi == lo then 0 else Or(StuckIn(fab, lo, hi - 1), StuckAt(fab, hi - 1))
  }

  /** The job starts with the two complementary fixed phases, as Memory Load and Extreme do. */
  ghost predicate DrivesBothWays(job: Job) {
    && 2 <= |job.patterns|
    && (forall w: nat :: job.patterns[0](w) == FIXED_A)
    && (forall w: nat :: job.patterns[1](w) == FIXED_5)
  }

  // ----- one word

  lemma FixedPairReveals(low: Word, high: Word)
    ensures Or(Xor(FIXED_A, Sense(low, high, FIXED_A)), Xor(FIXED_5, Sense(low, high, FIXED_5))) == Or(low, high)
  {}

  lemma OnlyStuckBitsDiffer(low: Word, high: Word, v: Word)
    ensures Or(Xor(v, Sense(low, high, v)), Or(low, high)) == Or(low, high)
  {}

  lemma OrSwap(a: Word, b: Word, c: Word, d: Word)
    ensures Or(Or(a, b), Or(c, d)) == Or(Or(a, c), Or(b, d))
  {
    hide Or;
    OrRegroup(a, b, Or(c, d));
    OrRegroup(b, c, d);
    OrRegroup(c, b, d);
    OrRegroup(b, c, 0);
    OrRegroup(a, c, Or(b, d));
  }

  lemma OrRegroup(a: Word, b: Word, c: Word)
    ensures Or(Or(a, b), c) == Or(a, Or(b, c))
    ensures Or(a, b) == Or(b, a)
  {
    OrLaws(a, b, c);
  }

  /** The difference word w shows in phase p. */
  function WordDiff(job: Job, fab: Fabric, p: nat, w: nat): Word
    requires job.Valid(fab) && p < |job.phases| && job.Owns(w)
  {
    Xor(job.patterns[p](w), Sense(fab.stuckLow[w], fab.stuckHigh[w], job.patterns[p](w)))
  }

  lemma {:induction false} WordLogDiff(job: Job, fab: Fabric, p: nat, w: nat)
    requires job.Valid(fab) && p < |job.phases| && job.Owns(w) && !job.cfg.inject
    ensures AllDiffs(WordLog(job, fab, p, w)) == WordDiff(job, fab, p, w)
    ensures WordLog(job, fab, p, w) == [] <==> WordDiff(job, fab, p, w) == 0
  {
    hide Xor, Sense, Or;
    NoDifference(job.patterns[p](w), ReadBack(job, fab, p, w));
    OrLaws(WordDiff(job, fab, p, w), 0, 0);
    var log := WordLog(job, fab, p, w);
    if log != [] {
      assert log[..0] == [];
    }
  }

  // ----- one phase

  function PhaseDiff(job: Job, fab: Fabric, p: nat, d: nat): Word
    requires job.Valid(fab) && p < |job.phases| && d <= job.count
  {
    if d == 0 then 0 else Or(PhaseDiff(job, fab, p, d - 1), WordDiff(job, fab, p, job.start + d - 1))
  }

  lemma {:induction false} PhaseLogDiff(job: Job, fab: Fabric, p: nat, d: nat)
    requires job.Valid(fab) && p < |job.phases| && d <= job.count && !job.cfg.inject
    ensures AllDiffs(PhaseLog(job, fab, p, d)) == PhaseDiff(job, fab, p, d)
  {
    hide Xor, Sense, Or, WordLog, WordDiff;
    if d > 0 {
      PhaseLogDiff(job, fab, p, d - 1);
      WordLogDiff(job, fab, p, job.start + d - 1);
      AllDiffsConcat(PhaseLog(job, fab, p, d - 1), WordLog(job, fab, p, job.start + d - 1));
    }
  }

  /** Between them the two fixed phases show every stuck bit. */
  lemma {:induction false} FixedPhasesReveal(job: Job, fab: Fabric, d: nat)
    requires job.Valid(fab) && d <= job.count && DrivesBothWays(job)
    ensures Or(PhaseDiff(job, fab, 0, d), PhaseDiff(job, fab, 1, d)) == StuckIn(fab, job.start, job.start + d)
  {
    hide Xor, Sense, Or, WordDiff;
    if d == 0 {
      OrLaws(0, 0, 0);
    } else {
      var w := job.start + d - 1;
      FixedPhasesReveal(job, fab, d - 1);
      WordRevealed(job, fab, w);
      OrSwap(PhaseDiff(job, fab, 0, d - 1), WordDiff(job, fab, 0, w), PhaseDiff(job, fab, 1, d - 1), WordDiff(job,
        fab, 1, w));
    }
  }

  lemma {:induction false} WordRevealed(job: Job, fab: Fabric, w: nat)
    requires job.Valid(fab) && job.Owns(w) && DrivesBothWays(job)
    ensures Or(WordDiff(job, fab, 0, w), WordDiff(job, fab, 1, w)) == StuckAt(fab, w)
  {
    hide Xor, Sense, Or;
    FixedPairReveals(fab.stuckLow[w], fab.stuckHigh[w]);
  }

  /** No phase shows anything else. */
  lemma {:induction false} PhaseShowsOnlyStuck(job: Job, fab: Fabric, p: nat, d: nat)
    requires job.Valid(fab) && p < |job.phases| && d <= job.count
    ensures Or(PhaseDiff(job, fab, p, d), StuckIn(fab, job.start, job.start + d))
      == StuckIn(fab, job.start, job.start + d)
  {
    hide Xor, Sense, Or;
    if d == 0 {
      OrLaws(0, 0, 0);
    } else {
      var w := job.start + d - 1;
      PhaseShowsOnlyStuck(job, fab, p, d - 1);
      OnlyStuckBitsDiffer(fab.stuckLow[w], fab.stuckHigh[w], job.patterns[p](w));
      OrSwap(PhaseDiff(job, fab, p, d - 1), WordDiff(job, fab, p, w), StuckIn(fab, job.start, w), StuckAt(fab, w));
    }
  }

  // ----- a whole pass

  lemma {:induction false} PassDiffGrows(job: Job, fab: Fabric, n: nat)
    requires job.Valid(fab) && 0 < n <= |job.phases| && !job.cfg.inject
    ensures AllDiffs(PhasesLog(job, fab, n))
      == Or(AllDiffs(PhasesLog(job, fab, n - 1)), PhaseDiff(job, fab, n - 1, job.count))
    ensures n == 1 ==> AllDiffs(PhasesLog(job, fab, n)) == PhaseDiff(job, fab, 0, job.count)
  {
    hide Or, PhaseDiff, PhaseLog;
    AllDiffsConcat(PhasesLog(job, fab, n - 1), PhaseLog(job, fab, n - 1, job.count));
    PhaseLogDiff(job, fab, n - 1, job.count);
    OrLaws(PhaseDiff(job, fab, n - 1, job.count), 0, 0);
  }

  lemma {:induction false} PassShowsStuck(job: Job, fab: Fabric, n: nat)
    requires job.Valid(fab) && 2 <= n <= |job.phases| && DrivesBothWays(job) && !job.cfg.inject
    ensures AllDiffs(PhasesLog(job, fab, n)) == StuckIn(fab, job.start, job.start + job.count)
  {
    hide Or, PhaseDiff, AllDiffs, PhasesLog;
    var d := job.count;
    PassDiffGrows(job, fab, n);
    if n == 2 {
      PassDiffGrows(job, fab, 1);
      FixedPhasesReveal(job, fab, d);
    } else {
      PassShowsStuck(job, fab, n - 1);
      PhaseShowsOnlyStuck(job, fab, n - 1, d);
      OrRegroup(StuckIn(fab, job.start, job.start + d), PhaseDiff(job, fab, n - 1, d), 0);
    }
  }

  /** Every error of a phase is at a stuck word of the slice. */
  lemma {:induction false} PhaseErrorsAreStuck(job: Job, fab: Fabric, p: nat, d: nat, e: ErrorRecord)
    requires job.Valid(fab) && p < |job.phases| && d <= job.count && !job.cfg.inject
    requires e in PhaseLog(job, fab, p, d)
    ensures exists w: nat :: job.Owns(w) && StuckAt(fab, w) != 0 && e.offset == 8 * w
  {
    hide Xor, Sense, Or, WordDiff;
    var w := job.start + d - 1;
    if e in PhaseLog(job, fab, p, d - 1) {
      PhaseErrorsAreStuck(job, fab, p, d - 1, e);
    } else {
      assert e in WordLog(job, fab, p, w);
      WordLogDiff(job, fab, p, w);
      StuckIfDifferent(job, fab, p, w);
      assert job.Owns(w) && e.offset == 8 * w;
    }
  }

  lemma {:induction false} StuckIfDifferent(job: Job, fab: Fabric, p: nat, w: nat)
    requires job.Valid(fab) && p < |job.phases| && job.Owns(w)
    ensures WordDiff(job, fab, p, w) != 0 ==> StuckAt(fab, w) != 0
  {
    hide Xor, Sense, Or;
    OnlyStuckBitsDiffer(fab.stuckLow[w], fab.stuckHigh[w], job.patterns[p](w));
    OrLaws(WordDiff(job, fab, p, w), 0, 0);
  }

  lemma {:induction false} PassErrorsAreStuck(job: Job, fab: Fabric, n: nat, e: ErrorRecord)
    requires job.Valid(fab) && n <= |job.phases| && !job.cfg.inject && e in PhasesLog(job, fab, n)
    ensures exists w: nat :: job.Owns(w) && StuckAt(fab, w) != 0 && e.offset == 8 * w
  {
    hide Xor, Sense, Or, PhaseLog;
    if e in PhasesLog(job, fab, n - 1) {
      PassErrorsAreStuck(job, fab, n - 1, e);
    } else {
      PhaseErrorsAreStuck(job, fab, n - 1, job.count, e);
    }
  }

  lemma {:induction false} PhaseContains(job: Job, fab: Fabric, p: nat, d: nat, w: nat)
    requires job.Valid(fab) && p < |job.phases| && d <= job.count && !job.cfg.inject
    requires job.start <= w < job.start + d && WordDiff(job, fab, p, w) != 0
    ensures exists e :: e in PhaseLog(job, fab, p, d) && e.offset == 8 * w
  {
    hide Xor, Sense, Or, WordDiff;
    if w == job.start + d - 1 {
      WordLogDiff(job, fab, p, w);
      var e := WordLog(job, fab, p, w)[0];
      assert e in PhaseLog(job, fab, p, d) && e.offset == 8 * w;
    } else {
      PhaseContains(job, fab, p, d - 1, w);
      var e :| e in PhaseLog(job, fab, p, d - 1) && e.offset == 8 * w;
      assert e in PhaseLog(job, fab, p, d);
    }
  }

  lemma {:induction false} PassContainsPhase(job: Job, fab: Fabric, n: nat, p: nat, e: ErrorRecord)
    requires job.Valid(fab) && p < n <= |job.phases| && e in PhaseLog(job, fab, p, job.count)
    ensures e in PhasesLog(job, fab, n)
  {
    hide PhaseLog;
    if p < n - 1 {
      PassContainsPhase(job, fab, n - 1, p, e);
    }
  }

  /** Every stuck word of the slice has an error. */
  lemma {:induction false} StuckWordIsReported(job: Job, fab: Fabric, w: nat)
    requires job.Valid(fab) && DrivesBothWays(job) && !job.cfg.inject && job.Owns(w) && StuckAt(fab, w) != 0
    ensures exists e :: e in PhasesLog(job, fab, |job.phases|) && e.offset == 8 * w
  {
    hide Xor, Sense, Or, WordDiff;
    WordRevealed(job, fab, w);
    OrLaws(WordDiff(job, fab, 0, w), WordDiff(job, fab, 1, w), 0);
    var p := if WordDiff(job, fab, 0, w) != 0 then 0 else 1;
    PhaseContains(job, fab, p, job.count, w);
    var e :| e in PhaseLog(job, fab, p, job.count) && e.offset == 8 * w;
    PassContainsPhase(job, fab, |job.phases|, p, e);
  }

  // ----- logs and reports of stuck bits

  predicate HasErrorAt(log: seq<ErrorRecord>, w: nat) {
    exists e :: e in log && e.offset == 8 * w
  }

  ghost predicate AtStuckWord(fab: Fabric, lo: nat, hi: nat, e: ErrorRecord)
    requires fab.Valid() && lo <= hi <= |fab.wires|
  {
    exists w: nat :: lo <= w < hi && StuckAt(fab, w) != 0 && e.offset == 8 * w
  }

  /** The log has errors at the stuck words of [lo, hi) and nowhere else, and their differences are the stuck bits. */
  ghost predicate ShowsStuck(fab: Fabric, log: seq<ErrorRecord>, lo: nat, hi: nat)
    requires fab.Valid() && lo <= hi <= |fab.wires|
  {
    && AllDiffs(log) == StuckIn(fab, lo, hi)
    && (forall e :: e in log ==> AtStuckWord(fab, lo, hi, e))
    && (forall w: nat :: lo <= w < hi && StuckAt(fab, w) != 0 ==> HasErrorAt(log, w))
  }

  ghost predicate FirstStuck(fab: Fabric, lo: nat, hi: nat, w: nat)
    requires fab.Valid() && lo <= hi <= |fab.wires|
  {
    lo <= w < hi && StuckAt(fab, w) != 0 && forall v: nat :: lo <= v < w ==> StuckAt(fab, v) == 0
  }

  ghost predicate LastStuck(fab: Fabric, lo: nat, hi: nat, w: nat)
    requires fab.Valid() && lo <= hi <= |fab.wires|
  {
    lo <= w < hi && StuckAt(fab, w) != 0 && forall v: nat :: w < v < hi ==> StuckAt(fab, v) == 0
  }

  /** The report says whether there are stuck bits in [lo, hi), which, and between which words. */
  ghost predicate StuckReport(fab: Fabric, report: Summary, lo: nat, hi: nat)
    requires fab.Valid() && lo <= hi <= |fab.wires|
  {
    && report.bitDiffOr == StuckIn(fab, lo, hi)
    && (report.first.None? <==> forall w: nat :: lo <= w < hi ==> StuckAt(fab, w) == 0)
    && (forall w: nat :: FirstStuck(fab, lo, hi, w) ==> report.minOffset == 8 * w)
    && (forall w: nat :: LastStuck(fab, lo, hi, w) ==> report.maxOffset == 8 * w)
  }

  lemma {:induction false} ShowsInReport(fab: Fabric, log: seq<ErrorRecord>, lo: nat, hi: nat)
    requires fab.Valid() && lo <= hi <= |fab.wires| && ShowsStuck(fab, log, lo, hi)
    ensures StuckReport(fab, Digest(log), lo, hi)
    ensures log == [] <==> forall w: nat :: lo <= w < hi ==> StuckAt(fab, w) == 0
  {
    hide StuckAt, StuckIn, AllDiffs, LowestOffset, HighestOffset, FirstStuck, LastStuck;
    if log != [] {
      assert AtStuckWord(fab, lo, hi, log[0]);
    }
    forall w: nat | lo <= w < hi && StuckAt(fab, w) != 0
      ensures log != []
    {
      assert HasErrorAt(log, w);
    }
    forall w: nat | FirstStuck(fab, lo, hi, w)
      ensures LowestOffset(log) == 8 * w
    {
      FirstIsLowest(fab, log, lo, hi, w);
    }
    forall w: nat | LastStuck(fab, lo, hi, w)
      ensures HighestOffset(log) == 8 * w
    {
      LastIsHighest(fab, log, lo, hi, w);
    }
  }

  lemma {:induction false} FirstIsLowest(fab: Fabric, log: seq<ErrorRecord>, lo: nat, hi: nat, w: nat)
    requires fab.Valid() && lo <= hi <= |fab.wires| && ShowsStuck(fab, log, lo, hi) && FirstStuck(fab, lo, hi, w)
    ensures LowestOffset(log) == 8 * w
  {
    hide StuckAt, StuckIn, AllDiffs, LowestOffset, HighestOffset;
    assert HasErrorAt(log, w);
    OffsetsAreBounds(log);
    var e :| e in log && e.offset == LowestOffset(log);
    assert AtStuckWord(fab, lo, hi, e);
  }

  lemma {:induction false} LastIsHighest(fab: Fabric, log: seq<ErrorRecord>, lo: nat, hi: nat, w: nat)
    requires fab.Valid() && lo <= hi <= |fab.wires| && ShowsStuck(fab, log, lo, hi) && LastStuck(fab, lo, hi, w)
    ensures HighestOffset(log) == 8 * w
  {
    hide StuckAt, StuckIn, AllDiffs, LowestOffset, HighestOffset;
    assert HasErrorAt(log, w);
    OffsetsAreBounds(log);
    var e :| e in log && e.offset == HighestOffset(log);
    assert AtStuckWord(fab, lo, hi, e);
  }

  lemma {:induction false} StuckInConcat(fab: Fabric, lo: nat, mid: nat, hi: nat)
    requires fab.Valid() && lo <= mid <= hi <= |fab.wires|
    ensures StuckIn(fab, lo, hi) == Or(StuckIn(fab, lo, mid), StuckIn(fab, mid, hi))
    decreases hi
  {
    hide Or, StuckAt;
    if mid == hi {
      OrLaws(StuckIn(fab, lo, mid), 0, 0);
    } else {
      StuckInConcat(fab, lo, mid, hi - 1);
      OrLaws(StuckIn(fab, lo, mid), StuckIn(fab, mid, hi - 1), StuckAt(fab, hi - 1));
    }
  }

  /** Logs of adjoining ranges add up. */
  lemma {:induction false} ShowsStuckConcat(fab: Fabric, a: seq<ErrorRecord>, b: seq<ErrorRecord>, lo: nat, mid: nat,
      hi: nat)
    requires fab.Valid() && lo <= mid <= hi <= |fab.wires|
    requires ShowsStuck(fab, a, lo, mid) && ShowsStuck(fab, b, mid, hi)
    ensures ShowsStuck(fab, a + b, lo, hi)
  {
    hide Or, StuckAt, StuckIn, AllDiffs;
    AllDiffsConcat(a, b);
    StuckInConcat(fab, lo, mid, hi);
    forall e | e in a + b
      ensures AtStuckWord(fab, lo, hi, e)
    {
      if e in a {
        assert AtStuckWord(fab, lo, mid, e);
      } else {
        assert AtStuckWord(fab, mid, hi, e);
      }
    }
    forall w: nat | lo <= w < hi && StuckAt(fab, w) != 0
      ensures HasErrorAt(a + b, w)
    {
      var part := if w < mid then a else b;
      assert HasErrorAt(part, w);
      var e :| e in part && e.offset == 8 * w;
      assert e in a + b;
    }
  }

  lemma {:induction false} NothingStuck(fab: Fabric, lo: nat, hi: nat)
    requires fab.Valid() && lo <= hi <= |fab.wires| && forall w: nat :: lo <= w < hi ==> StuckAt(fab, w) == 0
    ensures StuckIn(fab, lo, hi) == 0 && ShowsStuck(fab, [], lo, hi)
    decreases hi
  {
    hide Or, StuckAt;
    if lo < hi {
      NothingStuck(fab, lo, hi - 1);
      OrLaws(0, 0, 0);
    }
  }

  /** The log of a whole pass of a load mode shows exactly the stuck words of the slice. */
  lemma {:induction false} PassLogShowsStuck(job: Job, fab: Fabric)
    requires job.Valid(fab) && DrivesBothWays(job) && !job.cfg.inject
    ensures ShowsStuck(fab, PhasesLog(job, fab, |job.phases|), job.start, job.start + job.count)
  {
    hide StuckAt, StuckIn, AllDiffs, PhasesLog;
    var log := PhasesLog(job, fab, |job.phases|);
    PassShowsStuck(job, fab, |job.phases|);
    forall e | e in log
      ensures AtStuckWord(fab, job.start, job.start + job.count, e)
    {
      PassErrorsAreStuck(job, fab, |job.phases|, e);
    }
    forall w: nat | job.Owns(w) && StuckAt(fab, w) != 0
      ensures HasErrorAt(log, w)
    {
      StuckWordIsReported(job, fab, w);
    }
  }

  /** What the report of a finished pass says, for any stuck bits whatsoever. */
  lemma {:induction false} StuckBitsAreReported(jobs: seq<Job>, fab: Fabric, cells: seq<Word>, evs: seq<Event>, i: nat)
    requires Team(jobs, fab) && |cells| == fab.cellCount && AllPossible(jobs, fab, evs) && NoUpsets(evs)
    requires i < |jobs| && DrivesBothWays(jobs[i]) && !jobs[i].cfg.inject
    requires Exec(jobs, fab, Begin(jobs, fab, cells), evs).workers[i].pc == Finished
    ensures var job := jobs[i];
      var log := Exec(jobs, fab, Begin(jobs, fab, cells), evs).workers[i].log;
      && StuckReport(fab, Digest(log), job.start, job.start + job.count)
      && (log == [] <==> forall w: nat :: job.Owns(w) ==> StuckAt(fab, w) == 0)
  {
    hide Exec, PhasesLog, ShowsStuck, StuckReport, StuckAt;
    var job := jobs[i];
    LogIsPredicted(jobs, fab, cells, evs, i);
    PassLogShowsStuck(job, fab);
    ShowsInReport(fab, PhasesLog(job, fab, |job.phases|), job.start, job.start + job.count);
  }

  // ----- any mode: exactly when a pass stays silent

  /** Phase p stores nothing in the slice that its stuck bits would change. */
  ghost predicate Masked(job: Job, fab: Fabric, p: nat, d: nat)
    requires job.Valid(fab) && p < |job.phases| && d <= job.count
  {
    forall w: nat :: job.start <= w < job.start + d ==>
      Sense(fab.stuckLow[w], fab.stuckHigh[w], job.patterns[p](w)) == job.patterns[p](w)
  }

  lemma {:induction false} PhaseSilent(job: Job, fab: Fabric, p: nat, d: nat)
    requires job.Valid(fab) && p < |job.phases| && d <= job.count && !job.cfg.inject
    ensures PhaseLog(job, fab, p, d) == [] <==> Masked(job, fab, p, d)
  {
    hide Sense, WordLog, Masked;
    MaskedNext(job, fab, p, d);
    if d > 0 {
      PhaseSilent(job, fab, p, d - 1);
    }
  }

  lemma {:induction false} MaskedNext(job: Job, fab: Fabric, p: nat, d: nat)
    requires job.Valid(fab) && p < |job.phases| && d <= job.count && !job.cfg.inject
    ensures d == 0 ==> Masked(job, fab, p, d)
    ensures d > 0 ==> (Masked(job, fab, p, d) <==>
      Masked(job, fab, p, d - 1) && WordLog(job, fab, p, job.start + d - 1) == [])
  {
    hide Sense;
  }

  ghost predicate AllMasked(job: Job, fab: Fabric, n: nat)
    requires job.Valid(fab) && n <= |job.phases|
  {
    forall p: nat :: p < n ==> Masked(job, fab, p, job.count)
  }

  lemma {:induction false} PhasesSilent(job: Job, fab: Fabric, n: nat)
    requires job.Valid(fab) && n <= |job.phases| && !job.cfg.inject
    ensures PhasesLog(job, fab, n) == [] <==> AllMasked(job, fab, n)
  {
    hide PhaseLog, Masked;
    if n > 0 {
      PhasesSilent(job, fab, n - 1);
      PhaseSilent(job, fab, n - 1, job.count);
    }
  }

  /** Stuck bits escape a finished pass of any mode exactly when every phase happens to agree with them. */
  lemma {:induction false} PassIsSilentIffMasked(jobs: seq<Job>, fab: Fabric, cells: seq<Word>, evs: seq<Event>, i: nat)
    requires Team(jobs, fab) && |cells| == fab.cellCount && AllPossible(jobs, fab, evs) && NoUpsets(evs)
    requires i < |jobs| && !jobs[i].cfg.inject
    requires Exec(jobs, fab, Begin(jobs, fab, cells), evs).workers[i].pc == Finished
    ensures Exec(jobs, fab, Begin(jobs, fab, cells), evs).workers[i].log == [] <==>
      AllMasked(jobs[i], fab, |jobs[i].phases|)
  {
    hide Exec, PhasesLog, AllMasked;
    LogIsPredicted(jobs, fab, cells, evs, i);
    PhasesSilent(jobs[i], fab, |jobs[i].phases|);
  }
}
