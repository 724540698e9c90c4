/** The "minimal standard" random number generator of Park and Miller
    ("Random Number Generators: Good Ones are Hard to Find", CACM 31(10),
    October 1988), computed with Schrage's decomposition, and the uniform
    and normal wrappers that the calculator keeps in its state.

    The source keeps each generator in a C struct that its functions update
    in place, so each one is a class here; the value types `Uniform` and
    `Normal` are the same states as plain data, for the calculator's
    value-level model. */
module Variates {

  const Modulus: int := 2147483647
  const Multiplier: int := 16807
  const Quotient: int := 127773    // Modulus / Multiplier
  const Remainder: int := 2836     // Modulus % Multiplier
  const InitialSeed: int := 65521
  const HalfwaySeed: int := 676806766
  /** DBL_EPSILON, 2^-52. */
  const DblEpsilon: real := 1.0 / 4503599627370496.0
  const TwoTo31: int := 0x8000_0000

  /** C's `/` on integers: the quotient truncated toward zero. */
  function CDiv(a: int, b: int): int
    requires b > 0
  {
    if a >= 0 then a / b else -((-a) / b)
  }

  /** C's `%` on integers: the remainder takes the sign of the dividend. */
  function CRem(a: int, b: int): int
    requires b > 0
  {
    a - b * CDiv(a, b)
  }

  /** Seeds a draw never leaves: [1, Modulus - 1]. */
  predicate InRange(seed: int) {
    1 <= seed < Modulus
  }

  /** One step of unit_random_integer: Schrage's evaluation of
      Multiplier * seed mod Modulus with hi = seed / Q, lo = seed % Q. */
  function Schrage(seed: int): int {
    var hi := CDiv(seed, Quotient);
    var lo := CRem(seed, Quotient);
    var test := Multiplier * lo - Remainder * hi;
    if test > 0 then test else test + Modulus
  }

  function IntegerMin(): int { 1 }

  function IntegerMax(): int { Modulus - 1 }

  /** The seed that unit_random_seed stores for a requested seed `s`. */
  function SeedFor(s: int): int {
    if s <= 0 then 1
    else if s == Modulus then Modulus - 1
    else CRem(s, Modulus)
  }

  /** unit_random_real's value for a drawn integer `k`. */
  function UnitReal(k: int): real {
    ((k - 1) as real) / ((Modulus - 1) as real)
  }

  /** The (min, diff) pair that uniform_random_set stores for bounds a, b:
      the smaller bound and the width, whatever the argument order. */
  function UniformParams(a: real, b: real): (r: (real, real))
    ensures r.1 >= 0.0
    ensures r.0 <= a && r.0 <= b && (r.0 == a || r.0 == b)
    ensures r.0 + r.1 >= a && r.0 + r.1 >= b && (r.0 + r.1 == a || r.0 + r.1 == b)
  {
    if a < b then (a, b - a) else (b, a - b)
  }

  datatype Uniform = Uniform(seed: int, min: real, diff: real)

  /** A draw of uniform_random_real: advance the seed, scale the unit value. */
  function UniformNext(g: Uniform): (Uniform, real) {
    var s := Schrage(g.seed);
    (g.(seed := s), Draw(g.min, g.diff, s))
  }

  /** uniform_random_real's value once the unit generator has drawn `s`. */
  function Draw(min: real, diff: real, s: int): real {
    min + diff * UnitReal(s)
  }

  datatype Normal = Normal(mean: real, sd: real, x1: real, x2: real, returnX2: bool)

  function Abs(x: real): real {
    if x < 0.0 then -x else x
  }

  /** normal_random_set: new parameters, and the cached second variate is
      discarded, unless both differ from the old ones by at most DBL_EPSILON. */
  function NormalSet(g: Normal, mean: real, sd: real): Normal {
    if Abs(mean - g.mean) > DblEpsilon || Abs(sd - g.sd) > DblEpsilon then
      g.(mean := mean, sd := sd, returnX2 := false)
    else g
  }

  /** normal_random_real, given the unit-normal pair (z1, z2) that the
      polar method would produce for this call: a cached x2 is returned
      first; otherwise both variates are computed, x2 is cached and x1 is
      returned. */
  function NormalNext(g: Normal, z1: real, z2: real): (Normal, real) {
    if g.returnX2 then (g.(returnX2 := false), g.x2)
    else
      var x1 := g.sd * z1 + g.mean;
      var x2 := g.sd * z2 + g.mean;
      (g.(x1 := x1, x2 := x2, returnX2 := true), x1)
  }

  // ---------------------------------------------------------------------
  // Properties of the generator

  lemma {:induction false} SchrageTermsFit(seed: int)
    requires InRange(seed)
    ensures 0 <= CDiv(seed, Quotient) <= Multiplier
    ensures 0 <= CRem(seed, Quotient) < Quotient
    ensures 0 <= Multiplier * CRem(seed, Quotient) < TwoTo31
    ensures 0 <= Remainder * CDiv(seed, Quotient) < TwoTo31
    ensures -TwoTo31 < Multiplier * CRem(seed, Quotient) - Remainder * CDiv(seed, Quotient) < TwoTo31
    ensures 0 < Schrage(seed) < TwoTo31
  {
    var hi := CDiv(seed, Quotient);
    var lo := CRem(seed, Quotient);
    assert hi == seed / Quotient && lo == seed % Quotient;
    assert seed == Quotient * hi + lo;
    assert Quotient * hi < Quotient * (Multiplier + 1);
    assert Multiplier * lo <= Multiplier * (Quotient - 1);
    assert Remainder * hi <= Remainder * Multiplier;
  }

  /** If Multiplier * lo == Remainder * hi then Multiplier divides hi,
      because -977 * Multiplier + 5790 * Remainder == 1. */
  lemma {:induction false} SchrageZeroTest(hi: int, lo: int)
    requires 0 <= hi <= Multiplier && 0 <= lo < Quotient
    requires Multiplier * lo == Remainder * hi
    ensures (hi == 0 && lo == 0) || (hi == Multiplier && lo == Remainder)
  {
    assert -977 * Multiplier + 5790 * Remainder == 1;
    var k := -977 * hi + 5790 * lo;
    calc {
      Multiplier * k;
      -977 * Multiplier * hi + 5790 * (Multiplier * lo);
      -977 * Multiplier * hi + 5790 * (Remainder * hi);
      (-977 * Multiplier + 5790 * Remainder) * hi;
      hi;
    }
    assert 0 <= Multiplier * k <= Multiplier * 1;
    if k == 1 {
      assert Remainder * Multiplier == Multiplier * lo;
    }
  }

  /** Schrage's decomposition computes the minimal standard step
      seed := 16807 * seed mod 2147483647 and keeps the seed in range, so
      0 and Modulus are never drawn from an in-range seed. */
  lemma {:induction false} SchrageIsMinimalStandard(seed: int)
    requires InRange(seed)
    ensures Schrage(seed) == (Multiplier * seed) % Modulus
    ensures InRange(Schrage(seed))
    ensures IntegerMin() <= Schrage(seed) <= IntegerMax()
  {
    SchrageTermsFit(seed);
    var hi := CDiv(seed, Quotient);
    var lo := CRem(seed, Quotient);
    var test := Multiplier * lo - Remainder * hi;
    assert seed == Quotient * hi + lo;
    assert Multiplier * Quotient == Modulus - Remainder;
    calc {
      Multiplier * seed;
      Multiplier * (Quotient * hi) + Multiplier * lo;
      (Multiplier * Quotient) * hi + Multiplier * lo;
      (Modulus - Remainder) * hi + Multiplier * lo;
      Modulus * hi + test;
    }
    if test == 0 {
      SchrageZeroTest(hi, lo);
      assert false;
    }
    if test > 0 {
      ModOfMultiplePlus(Multiplier * seed, hi, test);
    } else {
      assert Multiplier * seed == Modulus * (hi - 1) + (test + Modulus);
      ModOfMultiplePlus(Multiplier * seed, hi - 1, test + Modulus);
    }
  }

  lemma {:induction false} ModOfMultiplePlus(x: int, q: int, r: int)
    requires 0 <= r < Modulus && x == Modulus * q + r
    ensures x % Modulus == r
  {
  }

  /** The degenerate seeds: 0 steps to Modulus, and Modulus is a fixed point
      (the source comment's "alternate between the two" does not happen). */
  lemma {:induction false} DegenerateSeeds()
    ensures Schrage(0) == Modulus
    ensures Schrage(Modulus) == Modulus
  {
    assert CDiv(Modulus, Quotient) == Multiplier;
    assert CRem(Modulus, Quotient) == Remainder;
  }

  /** unit_random_seed always stores a seed in [0, Modulus - 1]; it stores 0
      exactly for the multiples of Modulus other than Modulus itself, and an
      in-range request is kept as it is. */
  lemma {:induction false} SeedForRange(s: int)
    ensures 0 <= SeedFor(s) < Modulus
    ensures SeedFor(s) == 0 <==> (s > Modulus && s % Modulus == 0)
    ensures InRange(s) ==> SeedFor(s) == s
    ensures s <= 0 ==> SeedFor(s) == 1
    ensures s == Modulus ==> SeedFor(s) == Modulus - 1
  {
    if s > 0 && s != Modulus {
      assert CRem(s, Modulus) == s % Modulus;
    }
  }

  /** unit_random_real lies in [0, 1) for a drawn (in-range) integer. */
  lemma {:induction false} UnitRealBounds(k: int)
    requires InRange(k)
    ensures 0.0 <= UnitReal(k) < 1.0
  {
    assert (k - 1) as real < (Modulus - 1) as real;
  }

  /** uniform_random_set does not depend on the argument order. */
  lemma {:induction false} UniformParamsSymmetric(a: real, b: real)
    ensures UniformParams(a, b) == UniformParams(b, a)
  {
  }

  /** A uniform draw from an in-range seed lies in [min, min + diff), and is
      min itself when diff is 0. */
  lemma {:induction false} UniformNextBounds(g: Uniform)
    requires InRange(g.seed) && g.diff >= 0.0
    ensures InRange(UniformNext(g).0.seed)
    ensures g.min <= UniformNext(g).1 <= g.min + g.diff
    ensures g.diff > 0.0 ==> UniformNext(g).1 < g.min + g.diff
  {
    SchrageInRange(g.seed);
    DrawBounds(g.min, g.diff, Schrage(g.seed));
  }

  lemma {:induction false} DrawBounds(m: real, d: real, s: int)
    requires InRange(s) && d >= 0.0
    ensures m <= Draw(m, d, s) <= m + d
    ensures d > 0.0 ==> Draw(m, d, s) < m + d
  {
    UnitRealBounds(s);
    ScaleBelow(m, d, UnitReal(s));
  }

  lemma {:induction false} SchrageInRange(seed: int)
    requires InRange(seed)
    ensures InRange(Schrage(seed))
  {
    SchrageIsMinimalStandard(seed);
  }

  /** Scaling by a unit value in [0, 1) stays below the width, or is 0
      when the width is. */
  lemma {:induction false} ScaleBelow(m: real, d: real, u: real)
    requires d >= 0.0 && 0.0 <= u < 1.0
    ensures m <= m + d * u <= m + d
    ensures d > 0.0 ==> m + d * u < m + d
  {
    assert d - d * u == d * (1.0 - u);
  }

  /** Normal variates come in pairs: from an empty cache, two draws return
      sd * z1 + mean and then sd * z2 + mean, the second without a new pair,
      and leave the cache empty again. */
  lemma {:induction false} NormalPairs(g: Normal, z1: real, z2: real, w1: real, w2: real)
    requires !g.returnX2
    ensures NormalNext(g, z1, z2).1 == g.sd * z1 + g.mean
    ensures NormalNext(g, z1, z2).0.returnX2
    ensures NormalNext(NormalNext(g, z1, z2).0, w1, w2).1 == g.sd * z2 + g.mean
    ensures !NormalNext(NormalNext(g, z1, z2).0, w1, w2).0.returnX2
    ensures NormalNext(NormalNext(g, z1, z2).0, w1, w2).0.(returnX2 := true) == NormalNext(g, z1, z2).0
  {
  }

  /** Setting parameters that are new (by more than DBL_EPSILON) empties
      the cache, so the next draw uses them. */
  lemma {:induction false} NormalSetClearsCache(g: Normal, mean: real, sd: real, z1: real, z2: real)
    requires Abs(mean - g.mean) > DblEpsilon
    ensures !NormalSet(g, mean, sd).returnX2
    ensures NormalNext(NormalSet(g, mean, sd), z1, z2).1 == sd * z1 + mean
  {
  }

  // ---------------------------------------------------------------------
  // The generators as the source keeps them: structs updated in place

  /** unit_random_struct: just the seed. */
  class UnitRandom {
    var seed: int

    /** unit_random_init */
    constructor ()
      ensures seed == InitialSeed
    {
      seed := InitialSeed;
    }

    /** unit_random_seed */
    method Seed(s: int)
      modifies this
      ensures seed == SeedFor(s)
    {
      if s <= 0 {
        seed := 1;
        return;
      }
      if s == Modulus {
        seed := Modulus - 1;
        return;
      }
      seed := CRem(s, Modulus);
    }

    /** unit_random_integer: one minimal-standard step, returning the new seed. */
    method Integer() returns (k: int)
      modifies this
      ensures seed == Schrage(old(seed)) && k == seed
      ensures InRange(old(seed)) ==> InRange(k) && k == (Multiplier * old(seed)) % Modulus
    {
      var hi := CDiv(seed, Quotient);
      var lo := CRem(seed, Quotient);
      var test := Multiplier * lo - Remainder * hi;
      if test > 0 {
        seed := test;
      } else {
        seed := test + Modulus;
      }
      k := seed;
      if InRange(old(seed)) {
        SchrageIsMinimalStandard(old(seed));
      }
    }

    /** unit_random_real */
    method Real() returns (x: real)
      modifies this
      ensures seed == Schrage(old(seed)) && x == UnitReal(seed)
      ensures InRange(old(seed)) ==> InRange(seed) && 0.0 <= x < 1.0
    {
      var k := Integer();
      x := ((k - 1) as real) / ((Modulus - 1) as real);
      if InRange(old(seed)) {
        UnitRealBounds(k);
      }
    }
  }

  /** uniform_random_struct: a unit generator and the interval [min, min + diff). */
  class UniformRandom {
    const u: UnitRandom
    var min: real
    var diff: real

    ghost function Value(): Uniform
      reads this, u
    {
      Uniform(u.seed, min, diff)
    }

    /** uniform_random_init */
    constructor (a: real, b: real)
      ensures fresh(u)
      ensures Value() == Uniform(InitialSeed, UniformParams(a, b).0, UniformParams(a, b).1)
    {
      u := new UnitRandom();
      if a < b {
        min := a;
        diff := b - a;
      } else {
        min := b;
        diff := a - b;
      }
    }

    /** uniform_random_set */
    method Set(a: real, b: real)
      modifies this
      ensures Value() == old(Value()).(min := UniformParams(a, b).0, diff := UniformParams(a, b).1)
    {
      if a < b {
        min := a;
        diff := b - a;
      } else {
        min := b;
        diff := a - b;
      }
    }

    /** uniform_random_real */
    method Real() returns (x: real)
      modifies u
      ensures Value() == UniformNext(old(Value())).0
      ensures x == UniformNext(old(Value())).1
    {
      var v := u.Real();
      x := min + diff * v;
    }
  }

  /** normal_random_struct, without its two unit streams: the draws they
      feed go through log and sqrt and are supplied to Real as (z1, z2). */
  class NormalRandom {
    var mean: real
    var sd: real
    var x1: real
    var x2: real
    var returnX2: bool

    ghost function Value(): Normal
      reads this
    {
      Normal(mean, sd, x1, x2, returnX2)
    }

    /** normal_random_init */
    constructor (mean: real, sd: real)
      ensures Value().mean == mean && Value().sd == sd && !Value().returnX2
    {
      this.mean := mean;
      this.sd := sd;
      returnX2 := false;
    }

    /** normal_random_set */
    method Set(mean: real, sd: real)
      modifies this
      ensures Value() == NormalSet(old(Value()), mean, sd)
    {
      if Abs(mean - this.mean) > DblEpsilon {
        this.mean := mean;
        this.sd := sd;
        returnX2 := false;
      } else if Abs(sd - this.sd) > DblEpsilon {
        this.mean := mean;
        this.sd := sd;
        returnX2 := false;
      }
    }

    /** normal_random_real; (z1, z2) is the unit-normal pair of the polar method. */
    method Real(z1: real, z2: real) returns (x: real)
      modifies this
      ensures (Value(), x) == NormalNext(old(Value()), z1, z2)
    {
      if returnX2 {
        returnX2 := false;
        x := x2;
        assert NormalNext(old(Value()), z1, z2).0 == Value();
        return;
      }
      x1 := sd * z1 + mean;
      x2 := sd * z2 + mean;
      returnX2 := true;
      x := x1;
      assert NormalNext(old(Value()), z1, z2).0 == Value();
    }
  }

  /** exponential_random_struct without its unit stream: only the mean. */
  class ExponentialRandom {
    var sd: real

    /** exponential_random_init */
    constructor (sd: real)
      ensures this.sd == sd
    {
      this.sd := sd;
    }

    /** exponential_random_set */
    method Set(sd: real)
      modifies this
      ensures this.sd == sd
    {
      this.sd := sd;
    }
  }
}
