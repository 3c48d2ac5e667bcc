/**
 * Rounding to the binary64 format of IEEE 754-2019 with ties to even (section 4.3.1),
 * for non-negative reals, which is all that a byte count ever needs.
 */
module Binary64 {
  import opened Prelude

  datatype F64 = Finite(v: real) | Infinity

  const MIN_EXPONENT: int := -1022
  const MAX_EXPONENT: int := 1023
  const FRACTION_BITS: int := 52

  /** The largest significand plus one, 2^53. */
  const SIGNIFICANDS: nat := 0x20_0000_0000_0000

  /** `x` times 2 to the power `k`, by repeated doubling or halving. */
  function Scale(x: real, k: int): real
    decreases if k < 0 then -k else k
  {
    if k == 0 then x else if k > 0 then 2.0 * Scale(x, k - 1) else 0.5 * Scale(x, k + 1)
  }

  /** The exponent of the binade holding `x`, searching upwards from `e`. */
  function Exponent(x: real, e: int): (r: int)
    requires e <= MAX_EXPONENT
    ensures e <= r <= MAX_EXPONENT
    decreases MAX_EXPONENT - e
  {
    if e == MAX_EXPONENT || x < Scale(1.0, e + 1) then e else Exponent(x, e + 1)
  }

  /** The nearest integer, or the even one of the two nearest. */
  function HalfEven(q: real): int {
    var f := q.Floor;
    var r := q - f as real;
    if r < 0.5 || (r == 0.5 && f % 2 == 0) then f else f + 1
  }

  function Significand(x: real, e: int): int {
    HalfEven(Scale(x, FRACTION_BITS - e))
  }

  /** Overflow happens in the last binade, when the significand rounds up out of 53 bits. */
  function Round(x: real): F64 {
    var e := Exponent(x, MIN_EXPONENT);
    var m := Significand(x, e);
    if e == MAX_EXPONENT && m >= SIGNIFICANDS then Infinity
    else Finite(Scale(m as real, e - FRACTION_BITS))
  }

  /** `v as u64`: truncation that saturates. */
  function AsU64(f: F64): nat {
    match f
    case Infinity => U64_MAX
    case Finite(v) => if v < 0.0 then 0 else if v >= (U64_MAX + 1) as real then U64_MAX else v.Floor
  }

  /** Whether an integer has at most 53 significant bits. */
  predicate Fits53(n: nat) {
    n < SIGNIFICANDS || (n % 2 == 0 && Fits53(n / 2))
  }

  // ---------------------------------------------------------------------
  // Scaling
  // ---------------------------------------------------------------------

  lemma ScaleStep(x: real, k: int)
    ensures Scale(x, k + 1) == 2.0 * Scale(x, k)
  {
  }

  lemma {:induction false} ScaleCompose(x: real, a: int, b: int)
    ensures Scale(Scale(x, a), b) == Scale(x, a + b)
    decreases if b < 0 then -b else b
  {
    if b > 0 {
      ScaleCompose(x, a, b - 1);
      ScaleStep(x, a + b - 1);
    } else if b < 0 {
      ScaleCompose(x, a, b + 1);
      ScaleStep(x, a + b);
    }
  }

  lemma {:induction false} ScaleMonotone(x: real, y: real, k: int)
    requires x < y
    ensures Scale(x, k) < Scale(y, k)
    decreases if k < 0 then -k else k
  {
    if k > 0 {
      ScaleMonotone(x, y, k - 1);
    } else if k < 0 {
      ScaleMonotone(x, y, k + 1);
    }
  }

  lemma {:induction false} ScaleOfDouble(x: real, k: int)
    ensures Scale(2.0 * x, k) == Scale(x, k + 1)
    decreases if k < 0 then -k else k
  {
    if k > 0 {
      ScaleOfDouble(x, k - 1);
    } else if k < 0 {
      ScaleOfDouble(x, k + 1);
      ScaleStep(x, k + 1);
    }
  }

  lemma {:induction false} PowersGrow(a: int, b: int)
    requires a <= b
    ensures 0.0 < Scale(1.0, a) <= Scale(1.0, b)
    decreases b - a, if a < 0 then -a else a
  {
    if a < b {
      PowersGrow(a, b - 1);
      ScaleStep(1.0, b - 1);
    } else {
      PowerPositive(a);
    }
  }

  lemma {:induction false} PowerPositive(a: int)
    ensures 0.0 < Scale(1.0, a)
    decreases if a < 0 then -a else a
  {
    if a > 0 {
      PowerPositive(a - 1);
    } else if a < 0 {
      PowerPositive(a + 1);
    }
  }

  /** The powers that occur as constants; the exponent is a parameter so that nothing unrolls. */
  lemma PowerConstants(e: int)
    ensures e == 0 ==> Scale(1.0, e) == 1.0
    ensures e == 53 ==> Scale(1.0, e) == SIGNIFICANDS as real
    ensures e == 64 ==> Scale(1.0, e) == (U64_MAX + 1) as real
    ensures e == 100 ==> Scale(1.0, e) > 0x100_0000_0000_0000_0000_0000 as real
  {
    EightDoublings(1.0, 0);
    EightDoublings(1.0, 8);
    EightDoublings(1.0, 16);
    EightDoublings(1.0, 24);
    EightDoublings(1.0, 32);
    EightDoublings(1.0, 40);
    EightDoublings(1.0, 45);
    EightDoublings(1.0, 48);
    EightDoublings(1.0, 56);
    EightDoublings(1.0, 64);
    EightDoublings(1.0, 72);
    EightDoublings(1.0, 80);
    EightDoublings(1.0, 88);
    PowersGrow(96, if e == 100 then e else 96);
    ScaleStep(1.0, 48);
    ScaleStep(1.0, 49);
    ScaleStep(1.0, 50);
    ScaleStep(1.0, 51);
    ScaleStep(1.0, 52);
  }

  lemma EightDoublings(x: real, k: int)
    ensures Scale(x, k + 8) == 256.0 * Scale(x, k)
  {
    ScaleStep(x, k);
    ScaleStep(x, k + 1);
    ScaleStep(x, k + 2);
    ScaleStep(x, k + 3);
    ScaleStep(x, k + 4);
    ScaleStep(x, k + 5);
    ScaleStep(x, k + 6);
    ScaleStep(x, k + 7);
  }

  // ---------------------------------------------------------------------
  // Exponents
  // ---------------------------------------------------------------------

  /** `e` is the exponent of `x`, which is at least one and far below overflow. */
  predicate InBinade(x: real, e: int) {
    1.0 <= x && 0 <= e < 1000 && Scale(1.0, e) <= x < Scale(1.0, e + 1)
  }

  /** The search may start anywhere at or below the answer. */
  lemma {:induction false} ExponentInBinade(x: real, e: int, low: int)
    requires InBinade(x, e) && low <= e
    ensures Exponent(x, low) == e
    decreases e - low
  {
    if low < e {
      PowersGrow(low + 1, e);
      ExponentInBinade(x, e, low + 1);
    }
  }

  lemma {:induction false} FindBinade(x: real, low: int, top: int) returns (e: int)
    requires 1.0 <= x && 0 <= low < top <= 1000 && Scale(1.0, low) <= x < Scale(1.0, top)
    ensures InBinade(x, e) && e < top
    decreases top - low
  {
    if x < Scale(1.0, low + 1) {
      e := low;
    } else {
      e := FindBinade(x, low + 1, top);
    }
  }

  lemma BinadeOf(x: real, top: int) returns (e: int)
    requires 1.0 <= x < Scale(1.0, top) && 0 < top <= 1000
    ensures InBinade(x, e) && e < top
  {
    PowerConstants(0);
    e := FindBinade(x, 0, top);
  }

  // ---------------------------------------------------------------------
  // Rounding integers
  // ---------------------------------------------------------------------

  /** In its own binade a number has a significand of at most 53 bits, or exactly 2^53. */
  lemma RoundInBinade(x: real, e: int)
    requires InBinade(x, e)
    ensures 1 <= Significand(x, e) <= SIGNIFICANDS
    ensures Round(x) == Finite(Scale(Significand(x, e) as real, e - FRACTION_BITS))
  {
    ExponentInBinade(x, e, MIN_EXPONENT);
    ScaleMonotone(x, Scale(1.0, e + 1), FRACTION_BITS - e);
    ScaleCompose(1.0, e + 1, FRACTION_BITS - e);
    PowerConstants(FRACTION_BITS + 1);
    ScaleCompose(1.0, e, FRACTION_BITS - e);
    PowerConstants(0);
    PowersGrow(0, FRACTION_BITS);
    if Scale(1.0, e) < x {
      ScaleMonotone(Scale(1.0, e), x, FRACTION_BITS - e);
    }
  }

  lemma RoundOfDouble(x: real, e: int)
    requires InBinade(x, e) && e + 1 < 1000
    ensures Round(x).Finite? && Round(2.0 * x) == Finite(2.0 * Round(x).v)
  {
    ScaleStep(1.0, e);
    ScaleStep(1.0, e + 1);
    RoundInBinade(x, e);
    RoundInBinade(2.0 * x, e + 1);
    ScaleOfDouble(x, FRACTION_BITS - (e + 1));
    ScaleStep(Significand(x, e) as real, e - FRACTION_BITS);
  }

  /** Doubling an integer `k` times. */
  function Doubled(n: nat, k: nat): nat {
    if k == 0 then n else 2 * Doubled(n, k - 1)
  }

  lemma {:induction false} DoubledIsScale(n: nat, k: nat)
    ensures Doubled(n, k) as real == Scale(n as real, k)
    ensures Fits53(Doubled(n, k)) <==> Fits53(n)
    ensures Doubled(n, k) >= n
  {
    if k > 0 {
      DoubledIsScale(n, k - 1);
    }
  }

  /** An integer below 2^53 is its own nearest binary64 number. */
  lemma SmallIntegerIsExact(n: nat)
    requires 1 <= n < SIGNIFICANDS
    ensures Round(n as real) == Finite(n as real)
  {
    PowerConstants(FRACTION_BITS + 1);
    var e := BinadeOf(n as real, FRACTION_BITS + 1);
    RoundInBinade(n as real, e);
    DoubledIsScale(n, FRACTION_BITS - e);
    ScaleCompose(n as real, FRACTION_BITS - e, e - FRACTION_BITS);
  }

  /** A large odd integer cannot survive: the binary64 numbers around it are all even. */
  lemma RoundOfOdd(n: nat, top: int) returns (k: nat)
    requires SIGNIFICANDS <= n && 0 < top <= 900 && (n as real) < Scale(1.0, top)
    ensures Round(n as real) == Finite(k as real)
    ensures Fits53(k) && k >= 1 && k % 2 == 0
  {
    var e := BinadeOf(n as real, top);
    LargeBinade(n, e);
    RoundInBinade(n as real, e);
    k := Doubled(Significand(n as real, e), e - FRACTION_BITS);
    DoubledIsScale(Significand(n as real, e), e - FRACTION_BITS);
  }

  lemma LargeBinade(n: nat, e: int)
    requires SIGNIFICANDS <= n && InBinade(n as real, e)
    ensures e > FRACTION_BITS
  {
    PowerConstants(FRACTION_BITS + 1);
    if e <= FRACTION_BITS {
      PowersGrow(e + 1, FRACTION_BITS + 1);
    }
  }

  lemma RoundOfTwice(h: nat, j: nat, top: int)
    requires 1 <= h && 0 < top <= 900 && (h as real) < Scale(1.0, top) && Round(h as real) == Finite(j as real)
    ensures Round((2 * h) as real) == Finite((2 * j) as real)
  {
    var e := BinadeOf(h as real, top);
    RoundOfDouble(h as real, e);
  }

  /**
   * Rounding an integer gives an integer of at most 53 significant bits, and leaves it
   * alone exactly when it already had at most 53.
   */
  lemma {:induction false} RoundOfInteger(n: nat, top: int) returns (k: nat)
    requires 1 <= n && 0 < top <= 900 && (n as real) < Scale(1.0, top)
    ensures Round(n as real) == Finite(k as real)
    ensures Fits53(k) && k >= 1
    ensures k == n <==> Fits53(n)
    decreases n
  {
    if n < SIGNIFICANDS {
      SmallIntegerIsExact(n);
      k := n;
    } else if n % 2 == 0 {
      var j := RoundOfInteger(n / 2, top);
      RoundOfTwice(n / 2, j, top);
      k := 2 * j;
    } else {
      k := RoundOfOdd(n, top);
    }
  }

  lemma RoundOfZero()
    ensures Round(0.0) == Finite(0.0)
  {
    PowersGrow(MIN_EXPONENT + 1, MIN_EXPONENT + 1);
    ScaleOfZero(FRACTION_BITS - MIN_EXPONENT);
    ScaleOfZero(MIN_EXPONENT - FRACTION_BITS);
  }

  lemma {:induction false} ScaleOfZero(k: int)
    ensures Scale(0.0, k) == 0.0
    decreases if k < 0 then -k else k
  {
    if k > 0 {
      ScaleOfZero(k - 1);
    } else if k < 0 {
      ScaleOfZero(k + 1);
    }
  }
}
