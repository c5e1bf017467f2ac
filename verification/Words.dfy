/**
 64-bit words. Bitwise work is done on `bv64`; sums and products are done on naturals
 with an explicit reduction modulo 2^64, and the two views are joined by `FromNat` and
 `ToNat`, which are proved to be inverse to each other.
 */
module Words {

  type Word = bv64

  const TWO64: nat := 0x1_0000_0000_0000_0000

  const U64_MAX: nat := 0xffff_ffff_ffff_ffff

  /** What a C unsigned 64-bit expression holds when its exact value is n. */
  function U64(n: nat): (r: nat)
    ensures r < TWO64
    ensures n < TWO64 ==> r == n
  {
    n % TWO64
  }

  lemma U64Add(a: nat, b: nat)
    ensures U64(U64(a) + U64(b)) == U64(a + b)
  {}

  lemma U64Wrap(a: nat, b: nat)
    ensures U64(U64(a) + b) == U64(a + b) && U64(b + U64(a)) == U64(a + b)
  {}

  /** Shifts one bit in at the low end; the top bit is lost. */
  function Push(x: Word, bit: bool): Word {
    (x << 1) | (if bit then 1 else 0)
  }

  function Half(w: Word): Word {
    w >> 1
  }

  predicate Odd(w: Word) {
    w & 1 == 1
  }

  /** The word whose value is n modulo 2^64. */
  function FromNat(n: nat): Word {
    if n == 0 then 0 else Push(FromNat(n / 2), n % 2 == 1)
  }

  /** The unsigned value of a word. */
  function ToNat(w: Word): nat
    decreases w
  {
    if w == 0 then 0 else 2 * ToNat(Half(w)) + (if Odd(w) then 1 else 0)
  }

  function Pow2(k: nat): (p: nat)
    ensures p > 0
  {
    if k == 0 then 1 else 2 * Pow2(k - 1)
  }

  /** The word with its k lowest bits set. */
  function Mask(k: nat): Word {
    if k == 0 then 0 else Push(Mask(k - 1), true)
  }

  predicate Within(x: Word, m: Word) {
    x & !m == 0
  }

  lemma PushWithin(x: Word, m: Word, bit: bool)
    requires Within(x, m)
    ensures Within(Push(x, bit), Push(m, true))
  {
    if bit {
      assert ((x << 1) | 1) & !((m << 1) | 1) == (x & !m) << 1;
    } else {
      assert (x << 1) & !((m << 1) | 1) == (x & !m) << 1;
    }
  }

  lemma HalfWithin(x: Word, m: Word)
    requires Within(x, Push(m, true))
    ensures Within(Half(x), m)
  {}

  lemma PopPush(x: Word, bit: bool)
    requires Within(x, 0x7fff_ffff_ffff_ffff)
    ensures Half(Push(x, bit)) == x
    ensures Odd(Push(x, bit)) == bit
    ensures Push(x, bit) == 0 ==> x == 0 && !bit
  {}

  lemma PushPop(w: Word)
    ensures Push(Half(w), Odd(w)) == w
    ensures Within(w, 0xffff_ffff_ffff_ffff)
  {}

  lemma {:induction false} MaskLiterals()
    ensures Pow2(63) == 0x8000_0000_0000_0000 && Mask(63) == 0x7fff_ffff_ffff_ffff
    ensures Pow2(64) == TWO64 && Mask(64) == 0xffff_ffff_ffff_ffff
  {
    assert Pow2(8) == 0x100 && Mask(8) == 0xff;
    assert Pow2(16) == 0x1_0000 && Mask(16) == 0xffff;
    assert Pow2(24) == 0x100_0000 && Mask(24) == 0xff_ffff;
    assert Pow2(32) == 0x1_0000_0000 && Mask(32) == 0xffff_ffff;
    assert Pow2(40) == 0x100_0000_0000 && Mask(40) == 0xff_ffff_ffff;
    assert Pow2(48) == 0x1_0000_0000_0000 && Mask(48) == 0xffff_ffff_ffff;
    assert Pow2(56) == 0x100_0000_0000_0000 && Mask(56) == 0xff_ffff_ffff_ffff;
  }

  lemma {:induction false} FromNatWithin(n: nat, k: nat)
    requires n < Pow2(k)
    ensures Within(FromNat(n), Mask(k))
  {
    if n == 0 {
    } else {
      FromNatWithin(n / 2, k - 1);
      PushWithin(FromNat(n / 2), Mask(k - 1), n % 2 == 1);
    }
  }

  lemma {:induction false} ToNatFromNat(n: nat)
    requires n < TWO64
    ensures ToNat(FromNat(n)) == n
  {
    if n == 0 {
    } else {
      ToNatFromNat(n / 2);
      MaskLiterals();
      FromNatWithin(n / 2, 63);
      PopPush(FromNat(n / 2), n % 2 == 1);
    }
  }

  lemma {:induction false} ToNatBelow(w: Word, k: nat)
    requires Within(w, Mask(k))
    ensures ToNat(w) < Pow2(k)
    decreases k
  {
    if k == 0 {
      assert w == 0;
    } else {
      HalfWithin(w, Mask(k - 1));
      ToNatBelow(Half(w), k - 1);
    }
  }

  lemma {:induction false} FromNatToNat(w: Word)
    ensures FromNat(ToNat(w)) == w
    decreases w
  {
    if w == 0 {
    } else {
      FromNatToNat(Half(w));
      PushPop(w);
      var n := ToNat(Half(w));
      assert ToNat(w) / 2 == n && (ToNat(w) % 2 == 1) == Odd(w);
    }
  }

  lemma {:induction false} ToNatBound(w: Word)
    ensures ToNat(w) < TWO64
  {
    MaskLiterals();
    PushPop(w);
    ToNatBelow(w, 64);
  }

  lemma {:induction false} FromNatInjective(a: nat, b: nat)
    requires a < TWO64 && b < TWO64
    requires FromNat(a) == FromNat(b)
    ensures a == b
  {
    ToNatFromNat(a);
    ToNatFromNat(b);
  }

  // ----- unsigned sums and products

  function AddU64(x: Word, c: nat): Word {
    FromNat(U64(ToNat(x) + c))
  }

  function MulU64(x: Word, c: nat): Word {
    FromNat(U64(ToNat(x) * c))
  }

  lemma ModUnique(a: int, x: nat, z: int, m: nat)
    requires m > 0 && x < m
    requires a == x + m * z
    ensures a % m == x
  {
    var d := a / m - z;
    assert m * d == x - a % m;
    assert d >= 1 ==> m * d >= m;
    assert d <= -1 ==> m * d + m <= 0;
  }

  /** Reduction modulo 2^64 keeps remainders modulo its divisors. */
  lemma U64Keeps(x: nat, m: nat)
    requires m > 0 && TWO64 % m == 0
    ensures U64(x) % m == x % m
  {
    var q, r, t, h := x / TWO64, U64(x) % m, U64(x) / m, TWO64 / m;
    assert x == TWO64 * q + U64(x);
    TimesAssociates(m, h, q);
    assert m * (t + h * q) == m * t + m * (h * q);
    ModUnique(x, r, t + h * q, m);
  }

  lemma TimesAssociates(a: nat, b: nat, c: nat)
    ensures a * b * c == a * (b * c)
  {}

  lemma MulModInverse(x: nat, c: nat, d: nat, m: nat)
    requires m > 1 && x < m && (c * d) % m == 1
    ensures (((x * c) % m) * d) % m == x
  {
    var q, r := (x * c) / m, (x * c) % m;
    var t := (c * d) / m;
    assert c * d == m * t + 1;
    calc {
      r * d;
      (x * c - m * q) * d;
      x * (c * d) - m * (q * d);
      x * (m * t + 1) - m * (q * d);
      x + m * (x * t - q * d);
    }
    ModUnique(r * d, x, x * t - q * d, m);
  }

  /** Multiplying by c is undone by multiplying by its inverse modulo 2^64. */
  lemma {:induction false} MulU64Inverse(x: Word, c: nat, d: nat)
    requires (c * d) % TWO64 == 1
    ensures MulU64(MulU64(x, c), d) == x
  {
    ToNatBound(x);
    ToNatFromNat(U64(ToNat(x) * c));
    MulModInverse(ToNat(x), c, d, TWO64);
    FromNatToNat(x);
  }

  /** Adding c is undone by adding 2^64 - c. */
  lemma {:induction false} AddU64Inverse(x: Word, c: nat, d: nat)
    requires (c + d) % TWO64 == 0
    ensures AddU64(AddU64(x, c), d) == x
  {
    ToNatBound(x);
    ToNatFromNat(U64(ToNat(x) + c));
    var q := (ToNat(x) + c) / TWO64;
    ModUnique(U64(ToNat(x) + c) + d, ToNat(x), (c + d) / TWO64 - q, TWO64);
    FromNatToNat(x);
  }

  // ----- exclusive or, and shifts by any distance

  function Xor(a: Word, b: Word): Word {
    a ^ b
  }

  lemma XorRegroup(ab: Word, bc: Word, a: Word, b: Word, c: Word)
    ensures ab == Xor(a, b) && bc == Xor(b, c) ==> Xor(ab, c) == Xor(a, bc)
  {}

  lemma XorAssociative(a: Word, b: Word, c: Word)
    ensures Xor(Xor(a, b), c) == Xor(a, Xor(b, c))
  {
    XorRegroup(Xor(a, b), Xor(b, c), a, b, c);
  }

  lemma XorCommutative(a: Word, b: Word)
    ensures Xor(a, b) == Xor(b, a)
  {}

  lemma XorUnit(a: Word)
    ensures Xor(a, 0) == a && Xor(a, a) == 0
  {}

  lemma XorCancel(a: Word, b: Word)
    ensures Xor(Xor(a, b), b) == a
    ensures Xor(a, Xor(a, b)) == b
  {
    XorAssociative(a, b, b);
    XorAssociative(a, a, b);
    XorUnit(a);
    XorUnit(b);
    XorCommutative(0, b);
  }

  lemma XorTelescope(a: Word, b: Word, c: Word)
    ensures Xor(Xor(a, b), Xor(b, c)) == Xor(a, c)
  {
    XorAssociative(a, b, Xor(b, c));
    XorCancel(b, c);
  }

  /** `v << k` when left, `v >> k` otherwise. */
  function Shift(left: bool, k: nat, v: Word): Word {
    if k == 0 then v else ShiftOne(left, Shift(left, k - 1, v))
  }

  function ShiftOne(left: bool, v: Word): Word {
    if left then Push(v, false) else Half(v)
  }

  lemma HalfXor(a: Word, b: Word)
    ensures Half(Xor(a, b)) == Xor(Half(a), Half(b))
  {}

  lemma DoubleXor(a: Word, b: Word)
    ensures Push(Xor(a, b), false) == Xor(Push(a, false), Push(b, false))
  {}

  lemma ShiftOneXor(left: bool, a: Word, b: Word)
    ensures ShiftOne(left, Xor(a, b)) == Xor(ShiftOne(left, a), ShiftOne(left, b))
  {
    HalfXor(a, b);
    DoubleXor(a, b);
  }

  lemma {:induction false} ShiftXor(left: bool, k: nat, a: Word, b: Word)
    ensures Shift(left, k, Xor(a, b)) == Xor(Shift(left, k, a), Shift(left, k, b))
  {
    if k == 0 {
    } else {
      ShiftXor(left, k - 1, a, b);
      ShiftOneXor(left, Shift(left, k - 1, a), Shift(left, k - 1, b));
    }
  }

  lemma {:induction false} ShiftShift(left: bool, j: nat, k: nat, v: Word)
    ensures Shift(left, j, Shift(left, k, v)) == Shift(left, j + k, v)
  {
    if j == 0 {
    } else {
      ShiftShift(left, j - 1, k, v);
    }
  }

  lemma LeftShiftsInZeros(v: Word, m: Word)
    requires Within(v, !m)
    ensures Within(Push(v, false), !Push(m, true))
  {}

  lemma {:induction false} ShiftWithin(left: bool, k: nat, v: Word)
    requires k <= 64
    ensures Within(Shift(left, k, v), if left then !Mask(k) else Mask(64 - k))
  {
    if k == 0 {
      MaskLiterals();
      PushPop(v);
    } else {
      ShiftWithin(left, k - 1, v);
      if left {
        LeftShiftsInZeros(Shift(left, k - 1, v), Mask(k - 1));
      } else {
        HalfWithin(Shift(left, k - 1, v), Mask(64 - k));
      }
    }
  }

  lemma {:induction false} ShiftOut(left: bool, k: nat, v: Word)
    requires k >= 64
    ensures Shift(left, k, v) == 0
  {
    ShiftWithin(left, 64, Shift(left, k - 64, v));
    ShiftShift(left, 64, k - 64, v);
    MaskLiterals();
  }

  /** `v ^ (v << k)` or `v ^ (v >> k)`. */
  function XorShift(left: bool, k: nat, v: Word): Word {
    Xor(v, Shift(left, k, v))
  }

  function UnXorShift(left: bool, k: nat, v: Word): Word
    requires k > 0
    decreases 64 - k
  {
    if k >= 64 then v else UnXorShift(left, 2 * k, XorShift(left, k, v))
  }

  lemma {:induction false} XorShiftTwice(left: bool, k: nat, v: Word)
    ensures XorShift(left, k, XorShift(left, k, v)) == XorShift(left, 2 * k, v)
  {
    var a := Shift(left, k, v);
    ShiftXor(left, k, v, a);
    ShiftShift(left, k, k, v);
    XorTelescope(v, a, Shift(left, 2 * k, v));
  }

  lemma {:induction false} UnXorShiftXorShift(left: bool, k: nat, v: Word)
    requires k > 0
    ensures UnXorShift(left, k, XorShift(left, k, v)) == v
    decreases 64 - k
  {
    if k >= 64 {
      ShiftOut(left, k, v);
      XorUnit(v);
    } else {
      XorShiftTwice(left, k, v);
      UnXorShiftXorShift(left, 2 * k, v);
    }
  }

  lemma {:induction false} XorShiftsCommute(left: bool, j: nat, k: nat, v: Word)
    ensures XorShift(left, j, XorShift(left, k, v)) == XorShift(left, k, XorShift(left, j, v))
  {
    var a, b, c := Shift(left, j, v), Shift(left, k, v), Shift(left, j + k, v);
    ShiftXor(left, j, v, b);
    ShiftXor(left, k, v, a);
    ShiftShift(left, j, k, v);
    ShiftShift(left, k, j, v);
    XorSwap(v, b, a, c);
  }

  lemma XorSwap(v: Word, b: Word, a: Word, c: Word)
    ensures Xor(Xor(v, b), Xor(a, c)) == Xor(Xor(v, a), Xor(b, c))
  {
    XorAssociative(v, b, Xor(a, c));
    XorAssociative(v, a, Xor(b, c));
    XorAssociative(b, a, c);
    XorAssociative(a, b, c);
    XorCommutative(a, b);
  }

  lemma {:induction false} UnXorShiftCommutes(left: bool, j: nat, k: nat, v: Word)
    requires k > 0
    ensures XorShift(left, j, UnXorShift(left, k, v)) == UnXorShift(left, k, XorShift(left, j, v))
    decreases 64 - k
  {
    if k >= 64 {
    } else {
      UnXorShiftCommutes(left, j, 2 * k, XorShift(left, k, v));
      XorShiftsCommute(left, j, k, v);
    }
  }

  /** Every xorshift is undone, on either side, by its doubling inverse. */
  lemma {:induction false} XorShiftInverts(left: bool, k: nat, v: Word)
    requires k > 0
    ensures UnXorShift(left, k, XorShift(left, k, v)) == v
    ensures XorShift(left, k, UnXorShift(left, k, v)) == v
  {
    UnXorShiftXorShift(left, k, v);
    UnXorShiftCommutes(left, k, k, v);
  }

  function And(a: Word, b: Word): Word {
    a & b
  }

  lemma AndXor(a: Word, b: Word, m: Word)
    ensures And(Xor(a, b), m) == Xor(And(a, m), And(b, m))
  {
    MaskedXor(a, b, m);
  }

  lemma MaskedXor(a: Word, b: Word, m: Word)
    ensures Xor(a, b) & m == Xor(a & m, b & m)
  {}

  lemma NoDifference(a: Word, b: Word)
    ensures Xor(a, b) == 0 <==> a == b
  {}

  lemma AndPushOne(a: Word, m: Word)
    ensures And(Push(a, true), Push(m, true)) == Push(And(a, m), true)
  {}

  lemma AndPushZero(a: Word, m: Word)
    ensures And(Push(a, false), Push(m, true)) == Push(And(a, m), false)
  {}

  lemma AndPush(a: Word, m: Word, bit: bool)
    ensures And(Push(a, bit), Push(m, true)) == Push(And(a, m), bit)
  {
    hide And, Push;
    AndPushOne(a, m);
    AndPushZero(a, m);
  }

  lemma AndZero(a: Word)
    ensures And(a, 0) == 0 && And(0, a) == 0 && Push(0, false) == 0
  {}

  lemma HalfOfRemainder(x: nat, m: nat)
    requires m > 0
    ensures x % (2 * m) / 2 == (x / 2) % m && x % (2 * m) % 2 == x % 2
  {
    var q, r := x / (2 * m), x % (2 * m);
    assert 2 * m * q == 2 * (m * q);
    assert x / 2 == m * q + r / 2;
    ModUnique(x / 2, r / 2, q, m);
    ModUnique(x, r % 2, m * q + r / 2, 2);
  }

  /** Masking the k lowest bits is taking the remainder modulo 2^k. */
  lemma {:induction false} LowBits(x: nat, k: nat)
    ensures And(FromNat(x), Mask(k)) == FromNat(x % Pow2(k))
  {
    hide And;
    if k == 0 {
      AndZero(FromNat(x));
    } else {
      LowBits(x / 2, k - 1);
      HalfOfRemainder(x, Pow2(k - 1));
      AndPush(FromNat(x / 2), Mask(k - 1), x % 2 == 1);
      AndZero(Mask(k));
      PushesBits(x);
      PushesBits(x % Pow2(k));
    }
  }

  lemma {:induction false} PushesBits(x: nat)
    ensures FromNat(x) == Push(FromNat(x / 2), x % 2 == 1)
  {
    AndZero(0);
  }

  lemma OddXor(a: Word, b: Word)
    ensures Xor(Push(a, false), Push(b, true)) == Push(Xor(a, b), true)
  {}

  lemma XorPush(a: Word, b: Word, bit: bool)
    ensures Xor(Push(a, false), Push(b, bit)) == Push(Xor(a, b), bit)
  {
    DoubleXor(a, b);
    OddXor(a, b);
  }

  /** Adding below the low zero bits never carries: there, a sum is an exclusive or. */
  lemma {:induction false} AddWithoutCarry(x: nat, j: nat, k: nat)
    requires x % Pow2(k) == 0 && j < Pow2(k)
    ensures FromNat(x + j) == Xor(FromNat(x), FromNat(j))
    decreases k
  {
    if k == 0 || j == 0 {
      XorUnit(FromNat(x));
    } else {
      EvenHalves(x, Pow2(k - 1));
      AddWithoutCarry(x / 2, j / 2, k - 1);
      assert (x + j) / 2 == x / 2 + j / 2;
      XorPush(FromNat(x / 2), FromNat(j / 2), j % 2 == 1);
      PushZero(x);
    }
  }

  lemma EvenHalves(x: nat, m: nat)
    requires m > 0 && x % (2 * m) == 0
    ensures x % 2 == 0 && (x / 2) % m == 0
  {
    var t := x / (2 * m);
    assert x == 2 * (m * t);
    ModUnique(x / 2, 0, t, m);
  }

  lemma {:induction false} PushZero(x: nat)
    requires x % 2 == 0
    ensures FromNat(x) == Push(FromNat(x / 2), false)
  {}
}
