/**
 Bucket indexes of the base-2 exponential histogram and the law that lets the scale
 drop: halving an index is the same as indexing at the next lower scale.
 */
module ExpoIndex {

  const MIN_SCALE := -10
  const MAX_SCALE := 20
  const MIN_SIZE := 2

  // ---- Shifts ----

  /** x >> k on a signed integer: halve k times, rounding toward minus infinity. */
  function Shr(x: int, k: nat): int
    decreases k
  {
    if k == 0 then x else Shr(x / 2, k - 1)
  }

  /** x << k. */
  function Shl(x: int, k: nat): int
    decreases k
  {
    if k == 0 then x else Shl(2 * x, k - 1)
  }

  /** math.Ldexp(y, k) for k >= 0: y times 2^k, exactly. */
  function Ldexp(y: real, k: nat): real
    decreases k
  {
    if k == 0 then y else Ldexp(2.0 * y, k - 1)
  }

  function Ceil(y: real): int {
    -((-y).Floor)
  }

  lemma {:induction false} ShrCompose(x: int, j: nat, k: nat)
    ensures Shr(Shr(x, j), k) == Shr(x, j + k)
    decreases j
  {
    if j > 0 { ShrCompose(x / 2, j - 1, k); }
  }

  lemma {:induction false} ShrMonotone(x: int, y: int, k: nat)
    requires x <= y
    ensures Shr(x, k) <= Shr(y, k)
    decreases k
  {
    if k > 0 { ShrMonotone(x / 2, y / 2, k - 1); }
  }

  lemma ShrLast(x: int, k: nat)
    ensures Shr(x, k + 1) == Shr(x, k) / 2
  {
    ShrCompose(x, k, 1);
    assert Shr(Shr(x, k), 1) == Shr(Shr(x, k) / 2, 0);
  }

  lemma {:induction false} ShlLast(x: int, k: nat)
    ensures Shl(x, k + 1) == 2 * Shl(x, k)
    decreases k
  {
    if k > 0 { ShlLast(2 * x, k - 1); }
  }

  lemma {:induction false} LdexpLast(y: real, k: nat)
    ensures Ldexp(y, k + 1) == 2.0 * Ldexp(y, k)
    decreases k
  {
    if k > 0 { LdexpLast(2.0 * y, k - 1); }
  }

  // ---- expoIndex ----

  /**
   A positive finite value by its Frexp parts: the exponent and what matters of the fraction, which is in [1/2, 1).
   `half` says frac == 0.5, that is, v is a power of two; `lg` is whatever math.Log2(frac) returned.
   */
  datatype Magnitude = Magnitude(half: bool, exp: int, lg: real)

  /** The exponents Frexp can return for a float64, subnormals included. */
  predicate IsFloat64(m: Magnitude) {
    -1073 <= m.exp <= 1024
  }

  function Index(m: Magnitude, scale: int): int {
    if scale <= 0 then
      Shr(if m.half then m.exp - 2 else m.exp - 1, -scale)
    else if m.half then
      Shl(m.exp - 1, scale) - 1
    else
      var index := Shl(m.exp, scale) + Ceil(Ldexp(m.lg, scale)) - 1;
      var low, high := Shl(m.exp - 1, scale), Shl(m.exp, scale) - 1;
      if index < low then low else if index > high then high else index
  }

  lemma CeilHalves(y: real)
    ensures (Ceil(2.0 * y) - 1) / 2 == Ceil(y) - 1
  {
    var c := Ceil(y);
    assert (c - 1) as real < y <= c as real;
    var d := Ceil(2.0 * y);
    assert (d - 1) as real < 2.0 * y <= d as real;
    assert 2 * c - 2 < d <= 2 * c;
  }

  lemma HalveIndex(m: Magnitude, scale: int)
    ensures Index(m, scale) / 2 == Index(m, scale - 1)
  {
    if scale <= 0 {
      ShrLast(if m.half then m.exp - 2 else m.exp - 1, -scale);
    } else {
      ShlLast(m.exp - 1, scale - 1);
      ShlLast(m.exp, scale - 1);
      LdexpLast(m.lg, scale - 1);
      CeilHalves(Ldexp(m.lg, scale - 1));
    }
  }

  /** Downscaling agrees with indexing at the lower scale, across all three formulas and for every value of Log2. */
  lemma {:induction false} ShiftLaw(m: Magnitude, scale: int, k: nat)
    ensures Shr(Index(m, scale), k) == Index(m, scale - k)
    decreases k
  {
    if k > 0 {
      HalveIndex(m, scale);
      ShiftLaw(m, scale - 1, k - 1);
    }
  }

  // ---- What an index means ----

  /** Shr is division by 2^k = Shl(1, k), rounded toward minus infinity. */
  lemma {:induction false} ShrIsFloor(x: int, k: nat)
    ensures Shl(Shr(x, k), k) <= x < Shl(Shr(x, k) + 1, k)
    decreases k
  {
    if k > 0 {
      ShrIsFloor(x / 2, k - 1);
      ShlLast(Shr(x, k), k - 1);
      ShlLast(Shr(x, k) + 1, k - 1);
    }
  }

  /**
   At scale -k bucket i is (2^(i * 2^k), 2^((i+1) * 2^k)]. The index is that of the bucket around
   the value; a power of two, 2^(exp-1), is the closed upper end of its bucket.
   */
  lemma CoarseBucketContains(m: Magnitude, k: nat)
    ensures var i := Index(m, 0 - k);
            && (!m.half ==> Shl(i, k) <= m.exp - 1 && m.exp <= Shl(i + 1, k))
            && (m.half ==> Shl(i, k) < m.exp - 1 <= Shl(i + 1, k))
  {
    ShrIsFloor(if m.half then m.exp - 2 else m.exp - 1, k);
  }

  lemma {:induction false} LdexpBounds(y: real, k: nat)
    requires -1.0 < y < 0.0
    ensures -(Shl(1, k) as real) < Ldexp(y, k) < 0.0
    decreases k
  {
    if k > 0 {
      LdexpBounds(y, k - 1);
      LdexpLast(y, k - 1);
      ShlLast(1, k - 1);
    }
  }

  lemma {:induction false} ShlStep(x: int, k: nat)
    ensures Shl(x + 1, k) == Shl(x, k) + Shl(1, k)
    decreases k
  {
    if k > 0 {
      ShlStep(x, k - 1);
      ShlLast(x, k - 1);
      ShlLast(x + 1, k - 1);
      ShlLast(1, k - 1);
    }
  }

  /** The binary logarithm of the value, as accurate as `lg`. */
  function Log2(m: Magnitude): real {
    if m.half then (m.exp - 1) as real else m.exp as real + m.lg
  }

  lemma {:induction false} LdexpSum(x: int, y: real, k: nat)
    ensures Ldexp(x as real + y, k) == Shl(x, k) as real + Ldexp(y, k)
    decreases k
  {
    if k > 0 { LdexpSum(2 * x, 2.0 * y, k - 1); }
  }

  lemma {:induction false} LdexpZero(k: nat)
    ensures Ldexp(0.0, k) == 0.0
  {
    if k > 0 { LdexpZero(k - 1); }
  }

  /** An accurate logarithm is never clamped. */
  lemma FineIndexIsCeil(m: Magnitude, scale: nat)
    requires 0 < scale && !m.half && -1.0 < m.lg < 0.0
    ensures Index(m, scale) == Shl(m.exp, scale) + Ceil(Ldexp(m.lg, scale)) - 1
  {
    LdexpBounds(m.lg, scale);
    ShlStep(m.exp - 1, scale);
  }

  /**
   At scale k > 0 bucket i is (2^(i / 2^k), 2^((i+1) / 2^k)]. With an accurate logarithm the index is that of the
   bucket around the value: its logarithm times 2^k lies in (i, i + 1].
   */
  lemma FineBucketContains(m: Magnitude, scale: nat)
    requires 0 < scale && (m.half || -1.0 < m.lg < 0.0)
    ensures Index(m, scale) as real < Ldexp(Log2(m), scale) <= (Index(m, scale) + 1) as real
  {
    if m.half {
      LdexpSum(m.exp - 1, 0.0, scale);
      LdexpZero(scale);
    } else {
      LdexpSum(m.exp, m.lg, scale);
      FineIndexIsCeil(m, scale);
    }
  }

  // ---- Index bounds ----

  lemma {:induction false} ShlMonotone(x: int, y: int, k: nat)
    requires x <= y
    ensures Shl(x, k) <= Shl(y, k)
    decreases k
  {
    if k > 0 { ShlMonotone(2 * x, 2 * y, k - 1); }
  }

  lemma {:induction false} ShlGrows(x: int, j: nat, k: nat)
    requires j <= k
    ensures x >= 0 ==> 0 <= Shl(x, j) <= Shl(x, k)
    ensures x <= 0 ==> Shl(x, k) <= Shl(x, j) <= 0
    decreases k
  {
    if j < k {
      ShlGrows(x, j, k - 1);
      ShlLast(x, k - 1);
    } else if k > 0 {
      ShlGrows(2 * x, j - 1, k - 1);
    }
  }

  lemma {:induction false} ShrShrinks(x: int, k: nat)
    ensures x >= 0 ==> 0 <= Shr(x, k) <= x
    ensures x < 0 ==> x <= Shr(x, k) < 0
    decreases k
  {
    if k > 0 { ShrShrinks(x / 2, k - 1); }
  }

  lemma ShlFive(x: int, k: nat)
    ensures Shl(x, k + 5) == Shl(32 * x, k)
  {
    assert Shl(x, k + 5) == Shl(2 * x, k + 4);
    assert Shl(2 * x, k + 4) == Shl(4 * x, k + 3);
    assert Shl(4 * x, k + 3) == Shl(8 * x, k + 2);
    assert Shl(8 * x, k + 2) == Shl(16 * x, k + 1);
  }

  lemma ShlNone(x: int)
    ensures Shl(x, 0) == x
  {
  }

  lemma ShlTwenty(x: int)
    ensures Shl(x, 20) == x * 0x10_0000
  {
    hide Shl;
    ShlFive(x, 15);
    ShlFive(32 * x, 10);
    ShlFive(32 * (32 * x), 5);
    ShlFive(32 * (32 * (32 * x)), 0);
    ShlNone(32 * (32 * (32 * (32 * x))));
  }

  /** Every index of a float64 at every scale up to 20 fits in 32 bits. */
  lemma IndexBounds(m: Magnitude, scale: int)
    requires IsFloat64(m) && scale <= MAX_SCALE
    ensures -1074 * 0x10_0000 - 1 <= Index(m, scale) <= 1024 * 0x10_0000 - 1
  {
    if scale <= 0 {
      ShrShrinks(if m.half then m.exp - 2 else m.exp - 1, -scale);
    } else {
      ShlMonotone(-1074, m.exp - 1, scale);
      ShlMonotone(m.exp, 1024, scale);
      ShlMonotone(m.exp - 1, m.exp, scale);
      ShlGrows(-1074, scale, 20);
      ShlGrows(1024, scale, 20);
      ShlTwenty(-1074);
      ShlTwenty(1024);
      ShlStep(m.exp - 1, scale);
      ShlGrows(1, 0, scale);
    }
  }

  /** At the coarsest scale every float64 lands in one of three buckets. */
  lemma CoarsestBuckets(m: Magnitude)
    requires IsFloat64(m)
    ensures -2 <= Index(m, MIN_SCALE) <= 0
  {
    var x := if m.half then m.exp - 2 else m.exp - 1;
    ShrMonotone(-1075, x, 10);
    ShrMonotone(x, 1023, 10);
    assert Shr(-1075, 10) == Shr(-34, 5) == -2;
    assert Shr(1023, 10) == Shr(31, 5) == 0;
  }
}
