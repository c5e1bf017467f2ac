/**
 Arena arithmetic: page alignment, the runtime heap reserve, worker partitioning, and
 percentages computed with 64-bit intermediates only.
 */
module Arenas {
  import opened Words
  import opened Reports

  const PAGE: nat := 4096
  const MIB: nat := 0x10_0000
  const WORD_BYTES: nat := 8

  /** A byte range of the address space, and the whole words it holds. */
  datatype Arena = Arena(base: nat, size: nat, words: nat)

  function AlignDown(value: nat): (r: nat)
    ensures r % PAGE == 0 && r <= value < r + PAGE
  {
    value - value % PAGE
  }

  /** `align_up_u64`; None when the sum would not fit in 64 bits. */
  function AlignUp(value: nat): (r: Option<nat>)
    requires value < TWO64
    ensures r.Some? ==> r.value % PAGE == 0 && value <= r.value < value + PAGE && r.value < TWO64
    ensures r.None? <==> value > U64_MAX - (PAGE - 1)
  {
    if value > U64_MAX - (PAGE - 1) then None else Some(AlignDown(value + (PAGE - 1)))
  }

  function ArenaFromRange(base: nat, size: nat): Arena
    requires base < TWO64 && size < TWO64
  {
    match AlignUp(base)
    case None => Arena(base, 0, 0)
    case Some(alignedBase) =>
      if size > U64_MAX - base then Arena(alignedBase, 0, 0)
      else
        var alignedEnd := AlignDown(base + size);
        if alignedEnd <= alignedBase then Arena(alignedBase, 0, 0)
        else
          var bytes := alignedEnd - alignedBase;
          Arena(alignedBase, bytes, bytes / WORD_BYTES)
  }

  /** A page-aligned subrange of [base, base + size). */
  ghost predicate PagedSubrange(lo: int, hi: int, base: nat, size: nat) {
    base <= lo <= hi <= base + size && lo % PAGE == 0 && hi % PAGE == 0
  }

  /** The arena is the largest page-aligned part of its range, unless the address arithmetic overflows. */
  lemma ArenaIsLargest(base: nat, size: nat)
    requires base < TWO64 && size < TWO64
    ensures var a := ArenaFromRange(base, size);
      && a.words * WORD_BYTES == a.size
      && (a.size > 0 ==> PagedSubrange(a.base, a.base + a.size, base, size) && a.base + a.size < TWO64)
      && (base + size < TWO64 ==>
            forall lo, hi :: PagedSubrange(lo, hi, base, size) ==> hi - lo <= a.size)
  {
    hide AlignDown, AlignUp;
    var a := ArenaFromRange(base, size);
    if a.size > 0 {
      PagedDifference(AlignDown(base + size), a.base);
    }
    if base + size < TWO64 {
      forall lo, hi | PagedSubrange(lo, hi, base, size)
        ensures hi - lo <= a.size
      {
        PagesRoundOut(lo, hi, base, base + size);
      }
    }
  }

  lemma PagedDifference(a: nat, b: nat)
    requires a % PAGE == 0 && b % PAGE == 0 && a >= b
    ensures (a - b) / WORD_BYTES * WORD_BYTES == a - b && (a - b) % PAGE == 0
  {
    var pages := a / PAGE - b / PAGE;
    ModUnique(a - b, 0, pages, PAGE);
    ModUnique(a - b, 0, 512 * pages, WORD_BYTES);
  }

  lemma PagesRoundOut(lo: int, hi: int, from: nat, to: nat)
    requires from <= lo && hi <= to && lo % PAGE == 0 && hi % PAGE == 0
    ensures hi <= AlignDown(to)
    ensures from < TWO64 && AlignUp(from).Some? ==> AlignUp(from).value <= lo
    ensures from < TWO64 && AlignUp(from).None? ==> lo >= TWO64
  {
  }

  function RuntimeHeapReserve(heap: nat): (r: nat)
    ensures r % PAGE == 0
    ensures heap >= 4 * MIB ==> 2 * MIB <= r < heap
    ensures heap < 4 * MIB ==> r == 0
  {
    if heap < 4 * MIB then 0
    else if heap < 64 * MIB then AlignDown(heap / 2)
    else if heap < 512 * MIB then 16 * MIB
    else 32 * MIB
  }

  /**
   The reserve the documentation gives, 16 to 32 MiB, is what the code takes exactly for heaps of 32 MiB and
   more: below 4 MiB it takes nothing, from there to 64 MiB the paged half of the heap.
   */
  lemma ReserveIsAsDocumented(heap: nat)
    ensures 16 * MIB <= RuntimeHeapReserve(heap) <= 32 * MIB <==> heap >= 32 * MIB
    ensures heap < 4 * MIB ==> RuntimeHeapReserve(heap) == 0
    ensures 4 * MIB <= heap < 64 * MIB ==> RuntimeHeapReserve(heap) == AlignDown(heap / 2)
    ensures 64 * MIB <= heap ==> RuntimeHeapReserve(heap) == if heap < 512 * MIB then 16 * MIB else 32 * MIB
  {
    hide AlignDown;
    var r := AlignDown(heap / 2);
    assert 16 * MIB == PAGE * 4096;
    if 16 * MIB <= heap / 2 {
      PagesRoundOut(16 * MIB, 16 * MIB, 0, heap / 2);
    }
  }

  /** A heap of 8 MiB gets a reserve of 4 MiB. */
  lemma SmallHeapReserve()
    ensures RuntimeHeapReserve(0x80_0000) == 0x40_0000
  {
    assert (4 * MIB) % PAGE == 0;
  }

  // ----- worker slices

  function SplitBlockStart(total: nat, workers: nat, index: nat): nat {
    if workers == 0 || index > workers then 0
    else
      var remainder := total % workers;
      total / workers * index + (if index < remainder then index else remainder)
  }

  function SplitBlockSize(total: nat, workers: nat, index: nat): nat {
    if workers == 0 || index >= workers then 0
    else total / workers + (if index < total % workers then 1 else 0)
  }

  lemma SplitStep(total: nat, workers: nat, index: nat)
    requires index < workers
    ensures SplitBlockStart(total, workers, index + 1)
         == SplitBlockStart(total, workers, index) + SplitBlockSize(total, workers, index)
  {
    var base := total / workers;
    assert base * (index + 1) == base * index + base;
  }

  lemma SplitEnds(total: nat, workers: nat)
    requires workers > 0
    ensures SplitBlockStart(total, workers, 0) == 0
    ensures SplitBlockStart(total, workers, workers) == total
  {
    assert total / workers * workers + total % workers == total;
  }

  lemma {:induction false} SplitWithin(total: nat, workers: nat, i: nat)
    requires i <= workers && workers > 0
    ensures SplitBlockStart(total, workers, i) <= total
    decreases workers - i
  {
    if i == workers {
      SplitEnds(total, workers);
    } else {
      SplitWithin(total, workers, i + 1);
      SplitStep(total, workers, i);
    }
  }

  lemma {:induction false} SplitOrdered(total: nat, workers: nat, i: nat, j: nat)
    requires i < j <= workers
    ensures SplitBlockStart(total, workers, i) + SplitBlockSize(total, workers, i)
         <= SplitBlockStart(total, workers, j) <= total
    decreases j - i
  {
    SplitWithin(total, workers, j);
    SplitStep(total, workers, j - 1);
    if i + 1 < j {
      SplitOrdered(total, workers, i, j - 1);
    }
  }

  /** The worker whose slice holds word w. */
  function OwnerFrom(total: nat, workers: nat, w: nat, i: nat): (owner: nat)
    requires i < workers && w < total
    requires SplitBlockStart(total, workers, i) <= w
    ensures owner < workers
    ensures SplitBlockStart(total, workers, owner) <= w
    ensures w < SplitBlockStart(total, workers, owner) + SplitBlockSize(total, workers, owner)
    decreases workers - i
  {
    SplitStep(total, workers, i);
    if w < SplitBlockStart(total, workers, i + 1) then i
    else
      SplitEnds(total, workers);
      OwnerFrom(total, workers, w, i + 1)
  }

  /** Slices are pairwise disjoint, cover the arena, and differ in size by at most one word. */
  lemma SplitPartitions(total: nat, workers: nat, w: nat)
    requires workers > 0 && w < total
    ensures exists i :: 0 <= i < workers && InSlice(total, workers, i, w)
    ensures forall i, j :: 0 <= i < j < workers ==> !(InSlice(total, workers, i, w) && InSlice(total, workers, j, w))
    ensures forall i, j :: 0 <= i < workers && 0 <= j < workers ==>
      SplitBlockSize(total, workers, i) <= SplitBlockSize(total, workers, j) + 1
  {
    SplitEnds(total, workers);
    assert InSlice(total, workers, OwnerFrom(total, workers, w, 0), w);
    forall i, j | 0 <= i < j < workers
      ensures !(InSlice(total, workers, i, w) && InSlice(total, workers, j, w))
    {
      SplitOrdered(total, workers, i, j);
    }
  }

  /** The words left over go one each to the first workers. */
  lemma {:induction false} SplitFavoursFirst(total: nat, workers: nat, i: nat)
    requires i < workers
    ensures SplitBlockSize(total, workers, i) == (total + workers - 1 - i) / workers
    ensures forall j :: i < j < workers ==> SplitBlockSize(total, workers, i) >= SplitBlockSize(total, workers, j)
  {
    var q, r := total / workers, total % workers;
    var size := SplitBlockSize(total, workers, i);
    assert (q + 1) * workers == q * workers + workers;
    assert DivMod(total + workers - 1 - i, workers, size, if i < r then r - 1 - i else r + workers - 1 - i);
    DivModIsDivision(total + workers - 1 - i, workers, size, if i < r then r - 1 - i else r + workers - 1 - i);
  }

  predicate InSlice(total: nat, workers: nat, i: nat, w: nat) {
    var start := SplitBlockStart(total, workers, i);
    start <= w < start + SplitBlockSize(total, workers, i)
  }

  // ----- percentages

  /** The quotient of a by d, rounded down. */
  function Floor(a: nat, d: nat): nat
    requires d > 0
  {
    a / d
  }

  /** q and r are quotient and remainder of a by d. */
  ghost predicate DivMod(a: nat, d: nat, q: nat, r: nat) {
    a == q * d + r && r < d
  }

  lemma DivModIsDivision(a: nat, d: nat, q: nat, r: nat)
    requires DivMod(a, d, q, r)
    ensures q == Floor(a, d)
  {
    var x := a / d - q;
    assert x * d == r - a % d;
    assert x >= 1 ==> x * d >= d;
    assert x <= -1 ==> x * d + d <= 0;
  }

  /** Quotient and remainder of a sum, from those (q, r) and (t, s) of its terms. */
  function Carry(d: nat, q: nat, r: nat, t: nat, s: nat): (nat, nat)
    requires r < d && s < d
  {
    if s >= d - r then (q + t + 1, s - (d - r)) else (q + t, r + s)
  }

  lemma DivModSum(a: nat, b: nat, d: nat, q: nat, r: nat, t: nat, s: nat)
    requires DivMod(a, d, q, r) && DivMod(b, d, t, s)
    ensures var sum := Carry(d, q, r, t, s); DivMod(a + b, d, sum.0, sum.1)
  {
    assert (q + t) * d == q * d + t * d;
    assert (q + t + 1) * d == (q + t) * d + d;
  }

  /** q and r are quotient and remainder of m times x by d. */
  ghost predicate Term(m: nat, x: nat, d: nat, q: nat, r: nat) {
    DivMod(m * x, d, q, r)
  }

  /** Adding the terms for two multiples of x gives the term for their sum, and stays below 2^64. */
  lemma TermSum(m: nat, n: nat, x: nat, d: nat, q: nat, r: nat, t: nat, s: nat)
    requires x < d && m + n < TWO64 && r < d && s < d
    requires Term(m, x, d, q, r) && Term(n, x, d, t, s)
    ensures var sum := Carry(d, q, r, t, s); Term(m + n, x, d, sum.0, sum.1) && sum.0 < U64_MAX && sum.1 < d
  {
    assert (m + n) * x == m * x + n * x;
    DivModSum(m * x, n * x, d, q, r, t, s);
    var sum := Carry(d, q, r, t, s);
    QuotientBound(m + n, x, d, sum.0, sum.1);
  }

  lemma FirstTerms(x: nat, d: nat)
    requires x < d
    ensures Term(0, x, d, 0, 0) && Term(1, x, d, 0, x)
  {}

  lemma TermIsFloor(m: nat, x: nat, d: nat, q: nat, r: nat)
    requires Term(m, x, d, q, r) && x < d && m < TWO64
    ensures q == Floor(m * x, d) && q < TWO64
  {
    hide Floor;
    DivModIsDivision(m * x, d, q, r);
    QuotientBound(m, x, d, q, r);
  }

  lemma MulMonotone(a: nat, b: nat, c: nat)
    requires a <= b
    ensures a * c <= b * c && c * a <= c * b
  {}

  /** The quotient of m times something smaller than the divisor is below m. */
  lemma QuotientBound(m: nat, x: nat, d: nat, q: nat, r: nat)
    requires x < d && DivMod(m * x, d, q, r)
    ensures q == 0 || q < m
  {
    if q >= m && q > 0 {
      MulMonotone(m, q, d);
      MulMonotone(x, d - 1, m);
      assert m * (d - 1) == m * d - m;
      assert m == 0;
      MulMonotone(1, q, d);
    }
  }

  /** Of the scale, `done` is accounted for and each unit of `left` stands for `weight`. */
  ghost predicate Halved(left: nat, weight: nat, done: nat, scale: nat) {
    left * weight + done == scale && weight > 0 && (left > 0 ==> weight + done <= scale)
  }

  lemma HalvingStarts(scale: nat)
    ensures Halved(scale, 1, 0, scale)
  {}

  lemma HalvingEnds(weight: nat, done: nat, scale: nat)
    requires Halved(0, weight, done, scale)
    ensures done == scale
  {}

  /** Halving the scale moves its low bit into `done` and doubles the weight of the rest. */
  lemma HalfStep(left: nat, weight: nat, done: nat, scale: nat)
    requires left > 0 && Halved(left, weight, done, scale)
    ensures Halved(left / 2, weight + weight, if left % 2 == 1 then done + weight else done, scale)
    ensures weight + done <= scale && (left / 2 > 0 ==> weight + weight <= scale)
  {
    var half, bit := left / 2, left % 2;
    assert left * weight == half * (weight + weight) + bit * weight by {
      assert left == 2 * half + bit;
      assert (2 * half) * weight == half * (weight + weight);
    }
    if half > 0 {
      MulMonotone(1, half, weight + weight);
    }
  }

  /**
   `scaled_remainder_term`: floor(remainder * scale / denominator) without a product wider than
   64 bits. The saturating return of the source is dead code.
   */
  method ScaledRemainderTerm(remainder: nat, denominator: nat, scale: nat) returns (quotient: nat)
    requires remainder < denominator < TWO64 && scale < TWO64
    ensures quotient == Floor(scale * remainder, denominator)
    ensures quotient < TWO64
  {
    hide U64, Floor, Term, Halved;
    quotient := 0;
    var accumulated: nat, termQuotient: nat, termRemainder: nat, left: nat := 0, 0, remainder, scale;
    ghost var weight: nat, done: nat := 1, 0;
    FirstTerms(remainder, denominator);
    HalvingStarts(scale);
    while left != 0
      invariant Halved(left, weight, done, scale)
      invariant Term(done, remainder, denominator, quotient, accumulated) && accumulated < denominator
      invariant left > 0 ==>
        Term(weight, remainder, denominator, termQuotient, termRemainder) && termRemainder < denominator
      decreases left
    {
      HalfStep(left, weight, done, scale);
      if left % 2 == 1 {
        TermSum(done, weight, remainder, denominator, quotient, accumulated, termQuotient, termRemainder);
        done := done + weight;
        quotient := U64(quotient + termQuotient);
        if quotient == U64_MAX {
          assert false;
        }
        if termRemainder != 0 {
          if termRemainder >= denominator - accumulated {
            quotient := U64(quotient + 1);
            accumulated := termRemainder - (denominator - accumulated);
          } else {
            accumulated := U64(accumulated + termRemainder);
          }
        }
      }
      left := left / 2;
      if left == 0 {
        weight := weight + weight;
        break;
      }
      TermSum(weight, weight, remainder, denominator, termQuotient, termRemainder, termQuotient, termRemainder);
      weight := weight + weight;
      termQuotient := U64(termQuotient * 2);
      if termRemainder >= denominator - termRemainder {
        termQuotient := U64(termQuotient + 1);
        termRemainder := termRemainder - (denominator - termRemainder);
      } else {
        termRemainder := U64(termRemainder + termRemainder);
      }
    }
    HalvingEnds(weight, done, scale);
    TermIsFloor(scale, remainder, denominator, quotient, accumulated);
  }

  const SCALE: nat := 100_000

  lemma WholePlusPart(n: nat, d: nat, whole: nat, rest: nat)
    requires DivMod(n, d, whole, rest)
    ensures Floor(SCALE * n, d) == whole * SCALE + Floor(SCALE * rest, d)
  {
    var q, r := SCALE * rest / d, SCALE * rest % d;
    assert SCALE * n == (whole * SCALE + q) * d + r by {
      assert SCALE * (whole * d) == (whole * SCALE) * d;
      assert (whole * SCALE + q) * d == (whole * SCALE) * d + q * d;
    }
    DivModIsDivision(SCALE * n, d, whole * SCALE + q, r);
  }

  lemma WholeSaturates(whole: nat)
    ensures whole > U64_MAX / SCALE <==> whole * SCALE > U64_MAX
  {
    var limit := U64_MAX / SCALE;
    assert limit * SCALE <= U64_MAX < limit * SCALE + SCALE;
  }

  method Divide(n: nat, d: nat) returns (q: nat, r: nat)
    requires d > 0
    ensures DivMod(n, d, q, r) && r < d
  {
    q, r := n / d, n % d;
  }

  /** `nxmt_percent_milli`: thousandths of a percent, rounded down, saturating at 2^64 - 1. */
  method PercentMilli(numerator: nat, denominator: nat) returns (r: nat)
    requires numerator < TWO64 && denominator < TWO64
    ensures denominator == 0 ==> r == 0
    ensures denominator > 0 ==> r == Min(Floor(100000 * numerator, denominator), 0xffff_ffff_ffff_ffff)
  {
    if denominator == 0 {
      return 0;
    }
    hide Floor, U64, DivMod;
    var whole, remainder := Divide(numerator, denominator);
    WholePlusPart(numerator, denominator, whole, remainder);
    WholeSaturates(whole);
    if whole > U64_MAX / SCALE {
      return U64_MAX;
    }
    var wholeScaled := U64(whole * SCALE);
    var remainderScaled := ScaledRemainderTerm(remainder, denominator, SCALE);
    if wholeScaled > U64_MAX - remainderScaled {
      return U64_MAX;
    }
    r := U64(wholeScaled + remainderScaled);
  }
}
