/**
 Error reports: what one mismatch records, how reports of different workers merge, and
 what a report says about the log of errors behind it.
 */
module Reports {
  import opened Words
  import opened Patterns

  datatype Option<+T> = None | Some(value: T)

  datatype ErrorRecord = ErrorRecord(
    mode: Mode, phase: Phase, seed: Word, pass: nat, workerId: nat,
    offset: nat, expected: Word, actual: Word)
  {
    /** The `xor_diff` field: the bits that came back wrong. */
    function Diff(): Word {
      Xor(expected, actual)
    }
  }

  /** The contents of a report. */
  datatype Summary = Summary(
    first: Option<ErrorRecord>, errorCount: nat, minOffset: nat, maxOffset: nat, bitDiffOr: Word)

  function Or(a: Word, b: Word): Word {
    a | b
  }

  lemma OrLaws(a: Word, b: Word, c: Word)
    ensures Or(Or(a, b), c) == Or(a, Or(b, c))
    ensures Or(a, 0) == a && Or(0, a) == a
    ensures Or(a, b) == 0 <==> a == 0 && b == 0
  {}

  const EMPTY: Summary := Summary(None, 0, 0, 0, 0)

  /** `nxmt_report_record_error` on report contents. */
  function Record(s: Summary, e: ErrorRecord): Summary {
    var min := if s.first.None? || e.offset < s.minOffset then e.offset else s.minOffset;
    var max := if s.first.None? || e.offset > s.maxOffset then e.offset else s.maxOffset;
    Summary(if s.first.None? then Some(e) else s.first, U64(s.errorCount + 1), min, max, Or(s.bitDiffOr, e.Diff()))
  }

  function RecordAll(s: Summary, log: seq<ErrorRecord>): Summary {
    if log == [] then s else Record(RecordAll(s, log[..|log| - 1]), log[|log| - 1])
  }

  /** `nxmt_report_merge` on report contents. */
  function MergeInto(d: Summary, s: Summary): Summary {
    if s.errorCount == 0 then d
    else
      var take := d.first.None? && s.first.Some?;
      Summary(
        if take then s.first else d.first,
        U64(d.errorCount + s.errorCount),
        if take || s.minOffset < d.minOffset then s.minOffset else d.minOffset,
        if take || s.maxOffset > d.maxOffset then s.maxOffset else d.maxOffset,
        Or(d.bitDiffOr, s.bitDiffOr))
  }

  /** `NxmtReport`: the fields the functions of report.c update in place. */
  class Report {
    var hasFirstError: bool
    var first: ErrorRecord
    var errorCount: nat
    var minErrorOffset: nat
    var maxErrorOffset: nat
    var bitDiffOr: Word

    ghost function Contents(): Summary
      reads this
    {
      Summary(if hasFirstError then Some(first) else None, errorCount, minErrorOffset, maxErrorOffset, bitDiffOr)
    }

    constructor (placeholder: ErrorRecord)
      ensures Contents() == EMPTY
    {
      first := placeholder;
      hasFirstError, errorCount, minErrorOffset, maxErrorOffset, bitDiffOr := false, 0, 0, 0, 0;
    }

    method Init()
      modifies this
      ensures Contents() == EMPTY
    {
      hasFirstError := false;
      errorCount := 0;
      minErrorOffset := 0;
      maxErrorOffset := 0;
      bitDiffOr := 0;
    }

    method RecordError(e: ErrorRecord)
      modifies this
      ensures Contents() == Record(old(Contents()), e)
      ensures hasFirstError && first == (if old(hasFirstError) then old(first) else e)
      ensures errorCount == (old(errorCount) + 1) % 0x1_0000_0000_0000_0000
      ensures minErrorOffset ==
        if old(hasFirstError && minErrorOffset <= e.offset) then old(minErrorOffset) else e.offset
      ensures maxErrorOffset ==
        if old(hasFirstError && maxErrorOffset >= e.offset) then old(maxErrorOffset) else e.offset
      ensures bitDiffOr == Or(old(bitDiffOr), Xor(e.expected, e.actual))
    {
      hide Or, Xor;
      var diff := e.Diff();
      if !hasFirstError {
        hasFirstError := true;
        first := e;
        minErrorOffset := e.offset;
        maxErrorOffset := e.offset;
      } else {
        if e.offset < minErrorOffset {
          minErrorOffset := e.offset;
        }
        if e.offset > maxErrorOffset {
          maxErrorOffset := e.offset;
        }
      }
      errorCount := U64(errorCount + 1);
      bitDiffOr := Or(bitDiffOr, diff);
    }

    method Merge(src: Report)
      requires src != this
      modifies this
      ensures Contents() == MergeInto(old(Contents()), src.Contents())
    {
      if src.errorCount == 0 {
        return;
      }
      if !hasFirstError && src.hasFirstError {
        hasFirstError := true;
        first := src.first;
        minErrorOffset := src.minErrorOffset;
        maxErrorOffset := src.maxErrorOffset;
      } else {
        if src.minErrorOffset < minErrorOffset {
          minErrorOffset := src.minErrorOffset;
        }
        if src.maxErrorOffset > maxErrorOffset {
          maxErrorOffset := src.maxErrorOffset;
        }
      }
      errorCount := U64(errorCount + src.errorCount);
      bitDiffOr := Or(bitDiffOr, src.bitDiffOr);
    }
  }

  // ----- what a report means: a digest of the whole error log

  function LowestOffset(log: seq<ErrorRecord>): nat {
    if |log| == 0 then 0
    else if |log| == 1 then log[0].offset
    else Min(LowestOffset(log[..|log| - 1]), log[|log| - 1].offset)
  }

  function HighestOffset(log: seq<ErrorRecord>): nat {
    if |log| == 0 then 0
    else if |log| == 1 then log[0].offset
    else Max(HighestOffset(log[..|log| - 1]), log[|log| - 1].offset)
  }

  function Min(a: nat, b: nat): nat {
    if b < a then b else a
  }

  function Max(a: nat, b: nat): nat {
    if b > a then b else a
  }

  /** The offsets bound every error in the log and are attained by some error. */
  lemma {:induction false} OffsetsAreBounds(log: seq<ErrorRecord>)
    requires log != []
    ensures forall e :: e in log ==> LowestOffset(log) <= e.offset <= HighestOffset(log)
    ensures exists e :: e in log && e.offset == LowestOffset(log)
    ensures exists e :: e in log && e.offset == HighestOffset(log)
  {
    var rest, last := log[..|log| - 1], log[|log| - 1];
    assert log == rest + [last];
    assert last in log;
    if rest != [] {
      OffsetsAreBounds(rest);
      var lo :| lo in rest && lo.offset == LowestOffset(rest);
      var hi :| hi in rest && hi.offset == HighestOffset(rest);
      assert lo in log && hi in log;
    }
  }

  function AllDiffs(log: seq<ErrorRecord>): Word {
    if log == [] then 0 else Or(AllDiffs(log[..|log| - 1]), log[|log| - 1].Diff())
  }

  /** A bit is set in it exactly when some error of the log has expected another bit than it read there. */
  lemma {:induction false} DiffBits(log: seq<ErrorRecord>, bits: Word)
    ensures And(AllDiffs(log), bits) == 0 <==> forall e :: e in log ==> And(e.expected, bits) == And(e.actual, bits)
  {
    hide And, Or, Xor;
    if log == [] {
      AndZero(bits);
    } else {
      var rest, last := log[..|log| - 1], log[|log| - 1];
      assert log == rest + [last];
      DiffBits(rest, bits);
      OrBits(AllDiffs(rest), last.Diff(), bits);
      XorBits(last.expected, last.actual, bits);
    }
  }

  lemma OrBits(a: Word, b: Word, bits: Word)
    ensures And(Or(a, b), bits) == 0 <==> And(a, bits) == 0 && And(b, bits) == 0
  {
    hide And, Or;
    AndOr(a, b, bits);
    OrLaws(And(a, bits), And(b, bits), 0);
  }

  lemma AndOr(a: Word, b: Word, m: Word)
    ensures And(Or(a, b), m) == Or(And(a, m), And(b, m))
  {
    MaskedOr(a, b, m);
  }

  lemma MaskedOr(a: Word, b: Word, m: Word)
    ensures Or(a, b) & m == Or(a & m, b & m)
  {}

  lemma XorBits(a: Word, b: Word, bits: Word)
    ensures And(Xor(a, b), bits) == 0 <==> And(a, bits) == And(b, bits)
  {
    hide And, Xor;
    AndXor(a, b, bits);
    NoDifference(And(a, bits), And(b, bits));
  }

  /** The report a log of errors ought to produce, field by field. */
  function Digest(log: seq<ErrorRecord>): Summary {
    Summary(
      if log == [] then None else Some(log[0]),
      U64(|log|), LowestOffset(log), HighestOffset(log), AllDiffs(log))
  }

  lemma {:induction false} RecordingDigests(log: seq<ErrorRecord>)
    ensures RecordAll(EMPTY, log) == Digest(log)
  {
    if log == [] {
    } else {
      RecordingDigests(log[..|log| - 1]);
    }
  }

  lemma {:induction false} RecordAllConcat(s: Summary, a: seq<ErrorRecord>, b: seq<ErrorRecord>)
    ensures RecordAll(s, a + b) == RecordAll(RecordAll(s, a), b)
  {
    if b == [] {
      assert a + b == a;
    } else {
      assert (a + b)[..|a + b| - 1] == a + b[..|b| - 1];
      RecordAllConcat(s, a, b[..|b| - 1]);
    }
  }

  lemma {:induction false} RecordAllCount(s: Summary, log: seq<ErrorRecord>)
    requires s.errorCount < TWO64
    ensures RecordAll(s, log).errorCount == U64(s.errorCount + |log|)
  {
    if log == [] {
    } else {
      RecordAllCount(s, log[..|log| - 1]);
    }
  }

  lemma {:induction false} AllDiffsConcat(a: seq<ErrorRecord>, b: seq<ErrorRecord>)
    ensures AllDiffs(a + b) == Or(AllDiffs(a), AllDiffs(b))
  {
    if b == [] {
      assert a + b == a;
      OrLaws(AllDiffs(a), 0, 0);
    } else {
      var rest := b[..|b| - 1];
      assert (a + b)[..|a + b| - 1] == a + rest;
      AllDiffsConcat(a, rest);
      OrLaws(AllDiffs(a), AllDiffs(rest), b[|b| - 1].Diff());
    }
  }

  lemma {:induction false} OffsetsConcat(a: seq<ErrorRecord>, b: seq<ErrorRecord>)
    requires a != [] && b != []
    ensures LowestOffset(a + b) == Min(LowestOffset(a), LowestOffset(b))
    ensures HighestOffset(a + b) == Max(HighestOffset(a), HighestOffset(b))
  {
    var rest := b[..|b| - 1];
    assert (a + b)[..|a + b| - 1] == a + rest;
    if rest == [] {
      assert a + rest == a;
    } else {
      OffsetsConcat(a, rest);
    }
  }

  lemma {:induction false} MergeOfNonempty(a: seq<ErrorRecord>, b: seq<ErrorRecord>)
    requires |b| % TWO64 != 0 && a != []
    ensures MergeInto(Digest(a), Digest(b)) == Digest(a + b)
  {
    hide Or, AllDiffs, LowestOffset, HighestOffset;
    AllDiffsConcat(a, b);
    OffsetsConcat(a, b);
    U64Add(|a|, |b|);
    assert (a + b)[0] == a[0];
  }

  /** The source's count of this log is not mistaken for that of an empty one. */
  predicate CountKept(log: seq<ErrorRecord>) {
    log == [] || |log| % TWO64 != 0
  }

  /** Merging reports is concatenating logs, as long as the count of the merged log does not wrap to zero. */
  lemma {:induction false} MergeIsConcat(a: seq<ErrorRecord>, b: seq<ErrorRecord>)
    requires CountKept(b)
    ensures MergeInto(Digest(a), Digest(b)) == Digest(a + b)
  {
    if b == [] {
      assert a + b == a;
    } else if a == [] {
      assert a + b == b;
      OrLaws(AllDiffs(b), 0, 0);
    } else {
      MergeOfNonempty(a, b);
    }
  }

  /** Everything a report would take from log b is already in that of log a. */
  ghost predicate Absorbed(a: seq<ErrorRecord>, b: seq<ErrorRecord>) {
    && a != [] && LowestOffset(a) <= LowestOffset(b) && HighestOffset(b) <= HighestOffset(a)
    && Or(AllDiffs(a), AllDiffs(b)) == AllDiffs(a)
  }

  /**
   Exactly when the merge is right: the count of the merged log has not wrapped to zero, or, where it has and
   the source drops the log, the destination happened to hold all of it already.
   */
  lemma {:induction false} MergeIsRightIff(a: seq<ErrorRecord>, b: seq<ErrorRecord>)
    ensures MergeInto(Digest(a), Digest(b)) == Digest(a + b) <==> CountKept(b) || Absorbed(a, b)
  {
    hide Or, AllDiffs, LowestOffset, HighestOffset;
    if CountKept(b) {
      MergeIsConcat(a, b);
    } else if a == [] {
      assert a + b == b;
    } else {
      AllDiffsConcat(a, b);
      OffsetsConcat(a, b);
      assert (a + b)[0] == a[0];
      MultipleVanishes(|a|, |b|);
    }
  }

  lemma MultipleVanishes(a: nat, b: nat)
    requires b % TWO64 == 0
    ensures U64(a + b) == U64(a)
  {
    ModUnique(a + b, a % TWO64, a / TWO64 + b / TWO64, TWO64);
  }

  /** 2^64 errors merged into an empty report leave it empty. */
  lemma {:induction false} MergeCanDropALog(e: ErrorRecord)
    ensures var log := seq(TWO64, _ => e);
      MergeInto(EMPTY, Digest(log)) == EMPTY && Digest([] + log) != EMPTY
  {
    hide AllDiffs, LowestOffset, HighestOffset;
    var log := seq(TWO64, _ => e);
    assert [] + log == log && |log| % TWO64 == 0;
  }
}
