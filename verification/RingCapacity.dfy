/** The capacity of a ring: the bit operations that round it up, and the mask that turns a position into a slot. */
module RingCapacity {
  import opened RingMachine

  // ---- bits of naturals ----

  function Pow2(k: nat): (p: nat)
    ensures p > 0
  {
    if k == 0 then 1 else 2 * Pow2(k - 1)
  }

  predicate Bit(n: nat, i: nat) {
    if i == 0 then n % 2 == 1 else Bit(n / 2, i - 1)
  }

  function BitValue(b: bool): nat {
    if b then 1 else 0
  }

  function Or(a: nat, b: nat): nat {
    if a == 0 && b == 0 then 0 else BitValue(a % 2 == 1 || b % 2 == 1) + 2 * Or(a / 2, b / 2)
  }

  function And(a: nat, b: nat): nat {
    if a == 0 || b == 0 then 0 else BitValue(a % 2 == 1 && b % 2 == 1) + 2 * And(a / 2, b / 2)
  }

  function Shr(n: nat, w: nat): (r: nat)
    ensures r <= n
  {
    if w == 0 then n else Shr(n / 2, w - 1)
  }

  /** The position of the highest bit. */
  function Top(n: nat): (b: nat)
    requires n > 0
    ensures Pow2(b) <= n < Pow2(b + 1) && Bit(n, b)
  {
    if n == 1 then 0 else 1 + Top(n / 2)
  }

  lemma {:induction false} Pow2Monotone(j: nat, k: nat)
    requires j <= k
    ensures Pow2(j) <= Pow2(k)
    decreases k
  {
    if j < k { Pow2Monotone(j, k - 1); }
  }

  lemma {:induction false} NoBits(i: nat)
    ensures !Bit(0, i)
  {
    if i > 0 { NoBits(i - 1); }
  }

  lemma {:induction false} BitOr(a: nat, b: nat, i: nat)
    ensures Bit(Or(a, b), i) <==> Bit(a, i) || Bit(b, i)
    decreases i
  {
    if a == 0 && b == 0 {
      NoBits(i);
    } else if i > 0 {
      assert Or(a, b) / 2 == Or(a / 2, b / 2);
      BitOr(a / 2, b / 2, i - 1);
    }
  }

  lemma {:induction false} BitShr(n: nat, w: nat, i: nat)
    ensures Bit(Shr(n, w), i) <==> Bit(n, i + w)
    decreases w
  {
    if w > 0 { BitShr(n / 2, w - 1, i); }
  }

  lemma {:induction false} OrBound(a: nat, b: nat, k: nat)
    requires a < Pow2(k) && b < Pow2(k)
    ensures Or(a, b) < Pow2(k)
    decreases k
  {
    if k > 0 && (a > 0 || b > 0) { OrBound(a / 2, b / 2, k - 1); }
  }

  lemma {:induction false} AllBits(n: nat, k: nat)
    requires n < Pow2(k) && forall i: nat :: i < k ==> Bit(n, i)
    ensures n == Pow2(k) - 1
    decreases k
  {
    if k > 0 {
      assert Bit(n, 0);
      forall i: nat | i < k - 1 ensures Bit(n / 2, i) {
        assert Bit(n, i + 1);
      }
      AllBits(n / 2, k - 1);
    }
  }

  // ---- rounding up ----

  /** The w highest of k bits are set. */
  predicate TopRun(n: nat, k: nat, w: nat) {
    n < Pow2(k) && forall i: nat :: i < k <= i + w ==> Bit(n, i)
  }

  function Fold(n: nat, w: nat): nat {
    Or(n, Shr(n, w))
  }

  /** One line of nextPowerOfTwo doubles the run. */
  lemma FoldDoubles(n: nat, k: nat, w: nat)
    requires TopRun(n, k, w)
    ensures TopRun(Fold(n, w), k, 2 * w)
  {
    hide Bit, Or, Shr, Pow2;
    OrBound(n, Shr(n, w), k);
    forall i: nat | i < k <= i + 2 * w ensures Bit(Fold(n, w), i) {
      BitOr(n, Shr(n, w), i);
      BitShr(n, w, i);
    }
  }

  /** Copies the highest bit of n into every lower one. */
  function Smear(n: nat): nat {
    Fold(Fold(Fold(Fold(Fold(Fold(n, 1), 2), 4), 8), 16), 32)
  }

  lemma SmearIs(n: nat)
    requires 0 < n < Pow2(64)
    ensures Smear(n) == Pow2(Top(n) + 1) - 1
  {
    hide Bit, Fold, Pow2;
    var k := Top(n) + 1;
    if k > 64 { Pow2Monotone(64, Top(n)); }
    assert TopRun(n, k, 1);
    FoldDoubles(n, k, 1);
    var a := Fold(n, 1);
    FoldDoubles(a, k, 2);
    var b := Fold(a, 2);
    FoldDoubles(b, k, 4);
    var c := Fold(b, 4);
    FoldDoubles(c, k, 8);
    var d := Fold(c, 8);
    FoldDoubles(d, k, 16);
    var f := Fold(d, 16);
    FoldDoubles(f, k, 32);
    AllBits(Fold(f, 32), k);
  }

  /** n++ on 64 bits */
  function Increment(n: nat): nat {
    if n + 1 == Pow2(64) then 0 else n + 1
  }

  /** nextPowerOfTwo */
  function NextPowerOfTwo(n: nat): nat {
    if n == 0 then 1 else Increment(Smear(n - 1))
  }

  /** The exponent of the least power of two that is not below n. */
  function CeilLog(n: nat): nat {
    if n <= 1 then 0 else Top(n - 1) + 1
  }

  lemma CeilLogIs(n: nat, j: nat)
    ensures n <= Pow2(CeilLog(n))
    ensures n <= Pow2(j) <==> CeilLog(n) <= j
  {
    hide Pow2, Bit;
    var k := CeilLog(n);
    if k <= j { Pow2Monotone(k, j); } else { Pow2Monotone(j, k - 1); }
  }

  lemma CeilLogLeast(n: nat)
    ensures n <= Pow2(CeilLog(n)) && forall j: nat :: n <= Pow2(j) ==> Pow2(CeilLog(n)) <= Pow2(j)
  {
    hide Pow2, CeilLog;
    CeilLogIs(n, 0);
    forall j: nat | n <= Pow2(j) ensures Pow2(CeilLog(n)) <= Pow2(j) {
      CeilLogIs(n, j);
      Pow2Monotone(CeilLog(n), j);
    }
  }

  /** Rounding up on 64 bits: the power itself, or zero where it would be 2^64. */
  lemma RoundedIs(n: nat)
    requires n < Pow2(64)
    ensures NextPowerOfTwo(n) == if Pow2(CeilLog(n)) == Pow2(64) then 0 else Pow2(CeilLog(n))
  {
    hide Pow2, Smear, Top;
    Exponents();
    Pow2Monotone(1, 64);
    SmearZero();
    if n >= 2 { SmearIs(n - 1); }
  }

  /** The least power of two that is not below n, and zero when a 64-bit number cannot hold that power. */
  lemma LeastPowerOfTwo(n: nat)
    requires n < Pow2(64)
    ensures n <= Pow2(63) ==> NextPowerOfTwo(n) == Pow2(CeilLog(n))
    ensures n > Pow2(63) ==> NextPowerOfTwo(n) == 0
    ensures n <= Pow2(CeilLog(n)) && forall j: nat :: n <= Pow2(j) ==> Pow2(CeilLog(n)) <= Pow2(j)
  {
    hide Pow2, CeilLog, NextPowerOfTwo;
    CeilLogLeast(n);
    RoundedIs(n);
    Exponents();
    CeilLogIs(n, 63);
    CeilLogIs(n, 64);
  }

  lemma Exponents()
    ensures Pow2(0) == 1 && Pow2(1) == 2 && Pow2(64) == 2 * Pow2(63)
  {
  }

  lemma SmearZero()
    ensures Smear(0) == 0
  {
  }

  /** The capacity NewRingBuffer gives its buffer. */
  function RingSize(requested: int): nat {
    var n := NextPowerOfTwo(if requested < 0 then 0 else requested);
    if n < 2 then 2 else n
  }

  ghost predicate PowerOfTwo(n: nat) {
    exists k: nat :: n == Pow2(k)
  }

  /** Every requested capacity gets the least power of two that holds it, and at least two slots. */
  lemma RingSizeIs(requested: int)
    requires requested < Pow2(63)
    ensures PowerOfTwo(RingSize(requested)) && RingSize(requested) >= 2 && RingSize(requested) >= requested
    ensures forall j: nat :: j > 0 && requested <= Pow2(j) ==> RingSize(requested) <= Pow2(j)
  {
    hide Pow2, NextPowerOfTwo;
    var n := if requested < 0 then 0 else requested;
    Exponents();
    LeastPowerOfTwo(n);
    assert RingSize(requested) == Pow2(1) || RingSize(requested) == Pow2(CeilLog(n));
    forall j: nat | j > 0 && requested <= Pow2(j) ensures RingSize(requested) <= Pow2(j) {
      Pow2Monotone(1, j);
    }
  }

  // ---- the slot of a position ----

  lemma {:induction false} MaskSmall(k: nat, p: nat)
    requires p < Pow2(k)
    ensures And(p, Pow2(k) - 1) == p
    decreases k
  {
    if k > 0 && p > 0 { MaskSmall(k - 1, p / 2); }
  }

  lemma {:induction false} MaskNextLap(k: nat, p: nat)
    ensures And(p + Pow2(k), Pow2(k) - 1) == And(p, Pow2(k) - 1)
    decreases k
  {
    if k > 0 {
      MaskNextLap(k - 1, p / 2);
      AndStep(p, Pow2(k) - 1);
      AndStep(p + Pow2(k), Pow2(k) - 1);
    }
  }

  lemma AndStep(a: nat, b: nat)
    requires b % 2 == 1
    ensures And(a, b) == a % 2 + 2 * And(a / 2, b / 2)
  {
  }

  /** `pos & mask` is the slot of the machine. */
  lemma {:induction false} MaskIsLane(k: nat, p: nat)
    ensures And(p, Pow2(k) - 1) == Lane(Pow2(k), p)
    decreases p
  {
    hide And, Pow2;
    if p < Pow2(k) {
      MaskSmall(k, p);
    } else {
      MaskIsLane(k, p - Pow2(k));
      MaskNextLap(k, p - Pow2(k));
    }
  }
}
