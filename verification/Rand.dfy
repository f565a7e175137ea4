/**
  The linear congruential generator of lib.c. Its multiplier is 1 mod 4 and its increment
  odd, so modulo every power of two up to 2^32 it has full period (the power-of-two case of
  the Hull-Dobell theorem).
 */
module Rand {
  import opened CInts

  const MULTIPLIER := 1664525
  const INCREMENT := 1013904223
  const DEFAULT_SEED := 819234718
  const TWO31 := 0x8000_0000         // RAND_MAX + 1

  // ----- the generator

  /** One update of rand_seed, an unsigned 32-bit value. */
  function Next(seed: nat): (r: nat)
    ensures r < TWO32
  {
    (seed * MULTIPLIER + INCREMENT) % TWO32
  }

  /** rand_seed after `n` calls. */
  function State(seed: nat, n: nat): (r: nat)
    ensures seed < TWO32 ==> r < TWO32
  {
    if n == 0 then seed else Next(State(seed, n - 1))
  }

  /** The value returned by the `n`-th call, n >= 1. */
  function Output(seed: nat, n: nat): nat {
    State(seed, n) % TWO31
  }

  class Generator {
    var randSeedSet: bool
    var randSeed: nat

    constructor ()
      ensures !randSeedSet && randSeed == 0
    {
      randSeedSet, randSeed := false, 0;
    }

    /** The seed the next call starts from. */
    function Seed(): nat
      reads this
    {
      if randSeedSet then randSeed else DEFAULT_SEED
    }

    method Rand() returns (r: nat)
      modifies this
      ensures randSeedSet && Seed() == State(old(Seed()), 1)
      ensures r == Output(old(Seed()), 1) && r < TWO31
      ensures randSeed ==
                ((if old(randSeedSet) then old(randSeed) else 819234718) * 1664525 + 1013904223) % 0x1_0000_0000
      ensures r == randSeed % 0x8000_0000
    {
      if !randSeedSet {
        Srand(DEFAULT_SEED);
      }
      assert State(randSeed, 1) == Next(State(randSeed, 0));
      randSeed := (randSeed * MULTIPLIER + INCREMENT) % TWO32;
      r := randSeed % TWO31;
    }

    method Srand(seed: nat)
      modifies this
      ensures randSeedSet && randSeed == seed && Seed() == seed
    {
      randSeed := seed;
      randSeedSet := true;
    }
  }

  // ----- without the modulus

  function Step(x: int): int { x * MULTIPLIER + INCREMENT }

  function Iter(x: int, n: nat): int {
    if n == 0 then x else Step(Iter(x, n - 1))
  }

  lemma {:induction false} IterAdd(x: int, m: nat, n: nat)
    ensures Iter(x, m + n) == Iter(Iter(x, m), n)
  {
    if n > 0 { IterAdd(x, m, n - 1); }
  }

  /** `p` divides `d`. */
  ghost predicate Divides(p: int, d: int) {
    exists q: int :: d == Times(p, q)
  }

  function Times(p: int, q: int): int { p * q }

  lemma DividesDiff(p: int, a: int, b: int, c: int)
    requires Divides(p, a - b) && Divides(p, b - c)
    ensures Divides(p, a - c) && Divides(p, b - a)
  {
    var q :| a - b == Times(p, q);
    var r :| b - c == Times(p, r);
    assert a - c == p * q + p * r == p * (q + r) == Times(p, q + r);
    assert b - a == -(p * q) == p * (-q) == Times(p, -q);
  }

  lemma {:induction false} StateIsIter(seed: nat, n: nat)
    ensures Divides(TWO32, State(seed, n) - Iter(seed, n))
  {
    if n == 0 {
      assert State(seed, n) - Iter(seed, n) == Times(TWO32, 0);
    } else {
      StateIsIter(seed, n - 1);
      var q :| State(seed, n - 1) - Iter(seed, n - 1) == Times(TWO32, q);
      var w := Step(State(seed, n - 1));
      assert w - Step(Iter(seed, n - 1)) == Times(TWO32, q * MULTIPLIER);
      assert State(seed, n) - Iter(seed, n) == Times(TWO32, q * MULTIPLIER - w / TWO32);
    }
  }

  // ----- jumps of 2^k steps

  function Pow2(k: nat): (p: nat)
    ensures p >= 1
  {
    if k == 0 then 1 else 2 * Pow2(k - 1)
  }

  function NextT(p: int, t: int): int { t + 2 * (p * (t * t)) }

  function NextD(p: int, t: int, d: int): int { d * (1 + 2 * (p * t)) }

  function Affine(d: int, t: int, x: int): int { d + 4 * (t * x) }

  /** T and D such that 2^k steps take x to x + 2^k * (D + 4 T x), with D odd. */
  function T(k: nat): int {
    if k == 0 then (MULTIPLIER - 1) / 4 else NextT(Pow2(k - 1), T(k - 1))
  }

  function D(k: nat): int {
    if k == 0 then INCREMENT else NextD(Pow2(k - 1), T(k - 1), D(k - 1))
  }

  /** The odd factor of a jump. */
  function Odd(k: nat, x: int): int { Affine(D(k), T(k), x) }

  lemma JumpStep(k: nat, x: int)
    requires k > 0
    ensures Pow2(k) == 2 * Pow2(k - 1) == Pow2(k - 1) + Pow2(k - 1)
    ensures Odd(k - 1, x) == Affine(D(k - 1), T(k - 1), x)
    ensures Odd(k, x) == Affine(NextD(Pow2(k - 1), T(k - 1), D(k - 1)), NextT(Pow2(k - 1), T(k - 1)), x)
  {
    hide NextT, NextD, Affine;
  }

  lemma OddProduct(d: int, pt: int)
    requires d % 2 == 1
    ensures (d * (1 + 2 * pt)) % 2 == 1
  {
    assert d * (1 + 2 * pt) == d + 2 * (d * pt);
  }

  lemma {:induction false} DIsOdd(k: nat)
    ensures D(k) % 2 == 1
  {
    hide T, Pow2;
    if k > 0 {
      DIsOdd(k - 1);
      OddProduct(D(k - 1), Pow2(k - 1) * T(k - 1));
    }
  }

  lemma OddIsOdd(k: nat, x: int)
    ensures Odd(k, x) % 2 == 1
  {
    hide D, T;
    DIsOdd(k);
  }

  lemma {:induction false} Jump(k: nat, x: int)
    ensures Iter(x, Pow2(k)) == x + Times(Pow2(k), Odd(k, x))
    ensures Odd(k, x) % 2 == 1
  {
    hide Odd, D, T, Pow2, Iter, Times, Affine, NextD, NextT;
    OddIsOdd(k, x);
    if k == 0 {
      JumpOne(x);
    } else {
      var p := Pow2(k - 1);
      var y := Iter(x, p);
      JumpStep(k, x);
      JumpStep(k, y);
      Jump(k - 1, x);
      Jump(k - 1, y);
      IterAdd(x, p, p);
      JumpAlgebra(p, T(k - 1), D(k - 1), x);
    }
  }

  lemma JumpOne(x: int)
    ensures Iter(x, Pow2(0)) == x + Times(Pow2(0), Odd(0, x))
  {
    assert Iter(x, 0) == x;
  }

  lemma JumpAlgebra(p: int, t: int, d: int, x: int)
    ensures var y := x + Times(p, Affine(d, t, x));
            y + Times(p, Affine(d, t, y)) == x + Times(2 * p, Affine(NextD(p, t, d), NextT(p, t), x))
  {
    var pu := p * (d + 4 * (t * x));
    SecondHalf(p, t, d, x);
    WholeJump(p, t, d, x);
    var a := d * (1 + 2 * (p * t)) + 4 * ((t + 2 * (p * (t * t))) * x);
    assert (2 * p) * a == 2 * (p * a);
  }

  lemma SecondHalf(p: int, t: int, d: int, x: int)
    ensures var pu := p * (d + 4 * (t * x));
            p * (d + 4 * (t * (x + pu))) == pu + 4 * ((p * t) * pu)
  {
    var pu := p * (d + 4 * (t * x));
    assert t * (x + pu) == t * x + t * pu;
    assert p * (t * pu) == (p * t) * pu;
    assert p * (d + 4 * (t * x) + 4 * (t * pu)) == pu + 4 * (p * (t * pu));
  }

  lemma WholeJump(p: int, t: int, d: int, x: int)
    ensures var pu := p * (d + 4 * (t * x));
            p * (d * (1 + 2 * (p * t)) + 4 * ((t + 2 * (p * (t * t))) * x)) == pu + 2 * ((p * t) * pu)
  {
    var u, pt := d + 4 * (t * x), p * t;
    assert (p * (t * t)) * x == pt * (t * x) by {
      assert p * (t * t) == pt * t;
    }
    assert (t + 2 * (p * (t * t))) * x == t * x + 2 * ((p * (t * t)) * x);
    assert pt * u == pt * d + 4 * (pt * (t * x));
    assert p * (u + 2 * (pt * u)) == p * u + 2 * (p * (pt * u));
    assert p * (pt * u) == pt * (p * u);
  }

  // ----- full period modulo 2^k

  lemma OddMultiple(p: int, q: int)
    requires p > 0 && q % 2 == 1
    ensures !Divides(2 * p, Times(p, q))
  {
    if Divides(2 * p, Times(p, q)) {
      var r :| Times(p, q) == Times(2 * p, r);
      assert p * q == p * (2 * r);
      CancelFactor(p, q, 2 * r);
    }
  }

  lemma AtLeast(p: int, q: int)
    requires p > 0 && q >= 1
    ensures p * q >= p
  {
    assert p * (q - 1) >= 0;
  }

  /** A multiple of p strictly between -p and p is zero. */
  lemma OnlyZero(p: int, q: int)
    requires p > 0
    ensures -p < p * q < p ==> q == 0
  {
    if q >= 1 {
      AtLeast(p, q);
    } else if q <= -1 {
      AtLeast(p, -q);
      assert p * (-q) == -(p * q);
    }
  }

  lemma CancelFactor(p: int, a: int, b: int)
    requires p > 0 && p * a == p * b
    ensures a == b
  {
    assert p * (a - b) == 0;
    OnlyZero(p, a - b);
  }

  lemma PowStep(k: nat)
    ensures k == 0 ==> Pow2(k) == 1
    ensures k > 0 ==> Pow2(k) == 2 * Pow2(k - 1)
  {
  }

  lemma EvenMultiple(p: int, q: int)
    requires q % 2 == 0
    ensures Divides(2 * p, Times(p, q))
  {
    assert p * q == p * (2 * (q / 2)) == (2 * p) * (q / 2) == Times(2 * p, q / 2);
  }

  lemma OddMultiples(p: int, q: int, o: int)
    requires q % 2 == 1 && o % 2 == 1
    ensures Divides(2 * p, Times(p, q) + Times(p, o))
  {
    assert p * q + p * o == p * (q + o);
    EvenMultiple(p, q + o);
  }

  /** Some number of steps below 2^k reaches every residue modulo 2^k. */
  lemma {:induction false} Reach(x: int, y: int, k: nat) returns (n: nat)
    ensures n < Pow2(k) && Divides(Pow2(k), Iter(x, n) - y)
  {
    hide Pow2, T, D, Odd, Times, Iter;
    PowStep(k);
    if k == 0 {
      n := 0;
      AnyModOne(x, y);
    } else {
      var p := Pow2(k - 1);
      n := Reach(x, y, k - 1);
      var q :| Iter(x, n) - y == Times(p, q);
      if q % 2 == 1 {
        var z := Iter(x, n);
        Jump(k - 1, z);
        IterAdd(x, n, p);
        n := n + p;
        OddMultiples(p, q, Odd(k - 1, z));
      } else {
        EvenMultiple(p, q);
      }
    }
  }

  lemma AnyModOne(x: int, y: int)
    ensures Divides(1, Iter(x, 0) - y)
  {
    assert Iter(x, 0) - y == Times(1, x - y);
  }

  lemma JumpDivides(k: nat, x: int)
    ensures Divides(Pow2(k), Iter(x, Pow2(k)) - x)
  {
    Jump(k, x);
    assert Iter(x, Pow2(k)) - x == Times(Pow2(k), Odd(k, x));
  }

  /** No residue modulo 2^k is met twice within 2^k steps. */
  lemma {:induction false} Unique(x: int, m: nat, n: nat, k: nat)
    requires m < Pow2(k) && n < Pow2(k) && Divides(Pow2(k), Iter(x, m) - Iter(x, n))
    ensures m == n
  {
    hide Pow2, T, D, Odd, Iter, Divides;
    PowStep(k);
    if k > 0 {
      var p := Pow2(k - 1);
      var m0, n0 := if m < p then m else m - p, if n < p then n else n - p;
      HalfDivides(p, Iter(x, m) - Iter(x, n));
      LowHalf(x, m, k - 1);
      LowHalf(x, n, k - 1);
      DividesDiff(p, Iter(x, m0), Iter(x, m), Iter(x, n));
      DividesNeg(p, Iter(x, n0) - Iter(x, n));
      DividesDiff(p, Iter(x, m0), Iter(x, n), Iter(x, n0));
      Unique(x, m0, n0, k - 1);
      HalvesDiffer(x, m0, k - 1);
      DividesNeg(2 * p, Iter(x, m) - Iter(x, n));
    }
  }

  /** A jump of 2^k steps changes the residue modulo 2^(k+1). */
  lemma HalvesDiffer(x: int, m: nat, k: nat)
    ensures !Divides(2 * Pow2(k), Iter(x, m + Pow2(k)) - Iter(x, m))
  {
    hide Pow2, T, D, Odd, Iter, Divides;
    var p, z := Pow2(k), Iter(x, m);
    IterAdd(x, m, p);
    Jump(k, z);
    OddMultiple(p, Odd(k, z));
  }

  lemma DividesNeg(p: int, d: int)
    requires Divides(p, d)
    ensures Divides(p, -d)
  {
    var q :| d == Times(p, q);
    assert -d == -(p * q) == Times(p, -q);
  }

  lemma HalfDivides(p: int, d: int)
    requires Divides(2 * p, d)
    ensures Divides(p, d)
  {
    var q :| d == Times(2 * p, q);
    assert d == (2 * p) * q == p * (2 * q) == Times(p, 2 * q);
  }

  /** Dropping a whole jump of 2^k steps keeps the residue modulo 2^k. */
  lemma LowHalf(x: int, m: nat, k: nat)
    requires m < 2 * Pow2(k)
    ensures var m0 := if m < Pow2(k) then m else m - Pow2(k);
            Divides(Pow2(k), Iter(x, m0) - Iter(x, m))
  {
    var p := Pow2(k);
    if m < p {
      assert Iter(x, m) - Iter(x, m) == Times(p, 0);
    } else {
      IterAdd(x, m - p, p);
      JumpDivides(k, Iter(x, m - p));
      DividesNeg(p, Iter(x, m) - Iter(x, m - p));
    }
  }

  // ----- the generator's period

  lemma Pow32()
    ensures Pow2(31) == TWO31 && Pow2(32) == TWO32
  {
    assert Pow2(8) == 256;
    assert Pow2(16) == 65536;
    assert Pow2(24) == 0x100_0000;
  }

  lemma SmallMultiple(p: int, d: int)
    requires p > 0 && Divides(p, d) && -p < d < p
    ensures d == 0
  {
    var q :| d == Times(p, q);
    OnlyZero(p, q);
  }

  lemma ModDivides(p: int, d: int)
    requires p > 0
    ensures Divides(p, d - d % p)
  {
    assert d - d % p == p * (d / p) == Times(p, d / p);
  }

  /** The state modulo 2^31 or 2^32 follows the unreduced iteration. */
  lemma StateResidue(seed: nat, n: nat, k: nat)
    requires k == 31 || k == 32
    ensures Divides(Pow2(k), State(seed, n) % Pow2(k) - Iter(seed, n))
  {
    Pow32();
    StateIsIter(seed, n);
    if k == 31 { HalfDivides(TWO31, State(seed, n) - Iter(seed, n)); }
    var s := State(seed, n);
    ModDivides(Pow2(k), s);
    DividesNeg(Pow2(k), s - s % Pow2(k));
    DividesDiff(Pow2(k), s % Pow2(k), s, Iter(seed, n));
  }

  /** The low bits of some state among the first `p` are `y`. */
  ghost predicate Met(seed: nat, p: nat, y: nat)
    requires p > 0
  {
    exists n: nat :: n < p && State(seed, n) % p == y
  }

  /** From any seed, each k-bit residue appears exactly once among the first 2^k states. */
  lemma EachResidueOnce(seed: nat, y: nat, k: nat)
    requires (k == 31 || k == 32) && y < Pow2(k)
    ensures Met(seed, Pow2(k), y)
  {
    hide State, Pow2, Iter, Divides;
    var p := Pow2(k);
    var n := Reach(seed, y, k);
    StateResidue(seed, n, k);
    DividesDiff(p, State(seed, n) % p, Iter(seed, n), y);
    SmallMultiple(p, State(seed, n) % p - y);
  }

  lemma ResidueNotRepeated(seed: nat, m: nat, n: nat, k: nat)
    requires (k == 31 || k == 32) && m < Pow2(k) && n < Pow2(k)
    requires State(seed, m) % Pow2(k) == State(seed, n) % Pow2(k)
    ensures m == n
  {
    hide State, Pow2, Iter, Divides;
    var p := Pow2(k);
    StateResidue(seed, m, k);
    StateResidue(seed, n, k);
    DividesNeg(p, State(seed, m) % p - Iter(seed, m));
    DividesDiff(p, Iter(seed, m), State(seed, m) % p, Iter(seed, n));
    Unique(seed, m, n, k);
  }

  /** From any seed the state runs through all 2^32 values, each once, and then repeats. */
  lemma StatePeriod(seed: nat, y: nat)
    requires seed < TWO32 && y < TWO32
    ensures exists n: nat :: n < TWO32 && State(seed, n) == y
    ensures forall m: nat, n: nat :: m < n < TWO32 ==> State(seed, m) != State(seed, n)
    ensures State(seed, TWO32) == seed
  {
    hide State, Pow2, Iter, Divides;
    Pow32();
    EachResidueOnce(seed, y, 32);
    var i: nat :| i < Pow2(32) && State(seed, i) % Pow2(32) == y;
    StateBelow(seed, i);
    forall m: nat, n: nat | m < n < TWO32
      ensures State(seed, m) != State(seed, n)
    {
      if State(seed, m) == State(seed, n) { ResidueNotRepeated(seed, m, n, 32); }
    }
    JumpDivides(32, seed);
    StateResidue(seed, TWO32, 32);
    DividesDiff(TWO32, State(seed, TWO32) % TWO32, Iter(seed, TWO32), seed);
    SmallMultiple(TWO32, State(seed, TWO32) % TWO32 - seed);
    StateBelow(seed, TWO32);
  }

  lemma StateBelow(seed: nat, n: nat)
    requires seed < TWO32
    ensures State(seed, n) < TWO32 && State(seed, n) % TWO32 == State(seed, n)
  {
  }

  lemma {:induction false} StateShift(seed: nat, m: nat, n: nat)
    ensures State(State(seed, m), n) == State(seed, m + n)
  {
    if n > 0 { StateShift(seed, m, n - 1); }
  }

  /** Any 2^31 consecutive calls return every value of [0, 2^31) exactly once. */
  lemma OutputsOnce(seed: nat, start: nat, y: nat)
    requires y < TWO31
    ensures exists n: nat :: start < n <= start + TWO31 && Output(seed, n) == y
    ensures forall m: nat, n: nat :: start < m < n <= start + TWO31 ==> Output(seed, m) != Output(seed, n)
  {
    hide State, Pow2, Next;
    Pow32();
    var s := State(seed, start + 1);
    EachResidueOnce(s, y, 31);
    var i: nat :| i < Pow2(31) && State(s, i) % Pow2(31) == y;
    StateShift(seed, start + 1, i);
    assert Output(seed, start + 1 + i) == y;
    forall m: nat, n: nat | start < m < n <= start + TWO31
      ensures Output(seed, m) != Output(seed, n)
    {
      StateShift(seed, start + 1, m - start - 1);
      StateShift(seed, start + 1, n - start - 1);
      if Output(seed, m) == Output(seed, n) {
        ResidueNotRepeated(s, m - start - 1, n - start - 1, 31);
      }
    }
  }
}
