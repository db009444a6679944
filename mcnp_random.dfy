/** The MCNP linear congruential random number generator:
 *  seed := (mult * seed + add) mod 2^bits, with a skip-ahead that jumps n
 *  draws in O(log n) steps by repeated squaring of the affine map. */
module McnpRandom {
  import opened ModArith

  /** One entry of the table of standard generators. */
  datatype Generator = Generator(index: nat, mult: nat, add: nat, log2mod: nat, stride: nat, initseed: nat)

  /** The seven built-in generators, in table order (index 1..7). */
  const Standard: seq<Generator> := [
    Generator(1,       19073486328125, 0, 48, 152917, 19073486328125),
    Generator(2, 9219741426499971445, 1, 63, 152917, 1),
    Generator(3, 2806196910506780709, 1, 63, 152917, 1),
    Generator(4, 3249286849523012805, 1, 63, 152917, 1),
    Generator(5, 3512401965023503517, 0, 63, 152917, 1),
    Generator(6, 2444805353187672469, 0, 63, 152917, 1),
    Generator(7, 1987591058829310733, 0, 63, 152917, 1)
  ]

  /** An affine recurrence x -> (mult * x + add) mod modulus. */
  datatype Lcg = Lcg(mult: nat, add: nat, modulus: nat)

  /** The value of an unsigned 64-bit expression whose exact value is x. */
  function U64(x: int): nat { x % TWO64 }

  /** One step of the recurrence on exact integers. */
  function Next(g: Lcg, x: int): (r: nat)
    requires g.modulus > 0
    ensures r < g.modulus
  {
    (g.mult * x + g.add) % g.modulus
  }

  /** n steps of the recurrence, taken one draw at a time. */
  function Iterate(g: Lcg, x: int, n: nat): int
    requires g.modulus > 0
    decreases n
  {
    if n == 0 then x else Next(g, Iterate(g, x, n - 1))
  }

  /** Multiplier of the n-step affine map, mult^n mod modulus. */
  function Mult(g: Lcg, n: nat): nat
    requires g.modulus > 0
    decreases n
  {
    if n == 0 then 1 % g.modulus else (g.mult * Mult(g, n - 1)) % g.modulus
  }

  /** Additive part of the n-step affine map. */
  function Incr(g: Lcg, n: nat): nat
    requires g.modulus > 0
    decreases n
  {
    if n == 0 then 0 else (g.mult * Incr(g, n - 1) + g.add) % g.modulus
  }

  lemma MulBelowMod(g: Lcg, n: nat)
    requires g.modulus > 0
    ensures Mult(g, n) < g.modulus && Incr(g, n) < g.modulus
  {
  }

  /** Stepping n times from a reduced seed is one application of the n-step
   *  affine map. */
  lemma {:induction false} IterateIsAffine(g: Lcg, x: int, n: nat)
    requires g.modulus > 0 && 0 <= x < g.modulus
    ensures Iterate(g, x, n) == (Mult(g, n) * x + Incr(g, n)) % g.modulus
  {
    var m := g.modulus;
    if n == 0 {
      OneMod(m, x);
    } else {
      IterateIsAffine(g, x, n - 1);
      var a, b := Mult(g, n - 1), Incr(g, n - 1);
      var y := Iterate(g, x, n - 1);
      assert Iterate(g, x, n) == Next(g, y);
      assert y == (a * x + b) % m;
      assert Next(g, y) == (g.mult * y + g.add) % m;
      ModMulMod(g.mult, a * x + b, g.add, m);
      AffineRegroup(g.mult, a, x, b, g.add);
      ModMulMod(x, g.mult * a, g.mult * b + g.add, m);
      ModAddMod(x * ((g.mult * a) % m), g.mult * b + g.add, m);
      assert Mult(g, n) == (g.mult * a) % m;
      assert Incr(g, n) == (g.mult * b + g.add) % m;
      assert x * Mult(g, n) == Mult(g, n) * x;
    }
  }

  lemma OneMod(m: int, x: int)
    requires m > 0 && 0 <= x < m
    ensures (1 % m * x + 0) % m == x
  {
    if m == 1 { assert 1 % m == 0; } else { assert 1 % m == 1; }
  }

  /** The multiplier of a+b steps composes the multipliers of a and of b steps. */
  lemma {:induction false} MultAdd(g: Lcg, a: nat, b: nat)
    requires g.modulus > 0
    ensures Mult(g, a + b) == (Mult(g, b) * Mult(g, a)) % g.modulus
  {
    var m := g.modulus;
    MulBelowMod(g, a);
    if b == 0 {
      OneMod(m, Mult(g, a));
    } else {
      MultAdd(g, a, b - 1);
      var u, v := Mult(g, b - 1), Mult(g, a);
      assert Mult(g, a + b) == (g.mult * Mult(g, a + b - 1)) % m;
      assert Mult(g, a + b - 1) == (u * v) % m;
      ModMulMod(g.mult, u * v, 0, m);
      AffineRegroup(g.mult, u, v, 0, 0);
      ModMulMod(v, g.mult * u, 0, m);
      assert Mult(g, b) == (g.mult * u) % m;
      assert v * Mult(g, b) == Mult(g, b) * v;
    }
  }

  /** The offset of a+b steps: b steps applied after a steps. */
  lemma {:induction false} IncrAdd(g: Lcg, a: nat, b: nat)
    requires g.modulus > 0
    ensures Incr(g, a + b) == (Mult(g, b) * Incr(g, a) + Incr(g, b)) % g.modulus
  {
    var m := g.modulus;
    MulBelowMod(g, a);
    if b == 0 {
      OneMod(m, Incr(g, a));
    } else {
      IncrAdd(g, a, b - 1);
      var u, w, v := Mult(g, b - 1), Incr(g, b - 1), Incr(g, a);
      assert Incr(g, a + b) == (g.mult * Incr(g, a + b - 1) + g.add) % m;
      assert Incr(g, a + b - 1) == (u * v + w) % m;
      ModMulMod(g.mult, u * v + w, g.add, m);
      AffineRegroup(g.mult, u, v, w, g.add);
      ModMulMod(v, g.mult * u, g.mult * w + g.add, m);
      ModAddMod(v * ((g.mult * u) % m), g.mult * w + g.add, m);
      assert Mult(g, b) == (g.mult * u) % m;
      assert Incr(g, b) == (g.mult * w + g.add) % m;
      assert v * Mult(g, b) == Mult(g, b) * v;
    }
  }

  /** Skipping a draws and then b draws is skipping a+b draws. */
  lemma {:induction false} IterateAdd(g: Lcg, x: int, a: nat, b: nat)
    requires g.modulus > 0
    ensures Iterate(g, Iterate(g, x, a), b) == Iterate(g, x, a + b)
  {
    if b > 0 {
      IterateAdd(g, x, a, b - 1);
      assert Iterate(g, Iterate(g, x, a), b) == Next(g, Iterate(g, Iterate(g, x, a), b - 1));
      assert Iterate(g, x, a + b) == Next(g, Iterate(g, x, a + b - 1));
    }
  }

  /** Stepping from an unreduced seed equals stepping from its residue,
   *  as soon as at least one draw is taken. */
  lemma {:induction false} IterateReduces(g: Lcg, x: int, n: nat)
    requires g.modulus > 0 && n >= 1
    ensures Iterate(g, x, n) == Iterate(g, x % g.modulus, n)
  {
    if n == 1 {
      var m := g.modulus;
      assert Iterate(g, x, 1) == Next(g, x) == (g.mult * x + g.add) % m;
      assert Iterate(g, x % m, 1) == Next(g, x % m) == (g.mult * (x % m) + g.add) % m;
      ModMulMod(g.mult, x, g.add, m);
    } else {
      IterateReduces(g, x, n - 1);
      assert Iterate(g, x, n) == Next(g, Iterate(g, x, n - 1));
      assert Iterate(g, x % g.modulus, n) == Next(g, Iterate(g, x % g.modulus, n - 1));
    }
  }

  /** The skip count after negative counts have been moved up by whole
   *  periods and the result masked to the modulus. */
  function Normalized(n: int, period: nat, modulus: nat): (r: nat)
    requires period > 0 && modulus > 0
    ensures r < modulus
    ensures modulus % period == 0 ==> r % period == n % period
    decreases if n < 0 then -n else 0
  {
    if n < 0 then
      var r := Normalized(n + period, period, modulus);
      ModShift(n, 1, period);
      r
    else
      var r := n % modulus;
      ModOfModDivisor(n, period, modulus);
      r
  }

  lemma ModOfModDivisor(n: int, p: int, m: int)
    requires p > 0 && m > 0
    ensures m % p == 0 ==> (n % m) % p == n % p
  {
    if m % p == 0 {
      assert m == p * (m / p);
      ModOfMod(n, p, m / p);
    }
  }

  /** The conversion of an unsigned 64-bit product to the signed type LONG. */
  function ToLong(x: int): (r: int)
    ensures -0x8000_0000_0000_0000 <= r < 0x8000_0000_0000_0000
    ensures 0 <= x < 0x8000_0000_0000_0000 ==> r == x
  {
    var w := x % TWO64;
    if w >= 0x8000_0000_0000_0000 then w - TWO64 else w
  }

  /** Reinterpreting as signed keeps the residue modulo any power of two
   *  up to 2^64. */
  lemma ToLongResidue(x: int, bits: nat)
    requires bits <= 64
    ensures ToLong(x) % Pow2(bits) == x % Pow2(bits)
  {
    Wrap64ThenMask(x, bits);
    var w := x % TWO64;
    if w >= 0x8000_0000_0000_0000 {
      WrapAddMask(w, -(TWO64 as int), bits);
      assert (w % TWO64 - TWO64) % Pow2(bits) == (w - TWO64) % Pow2(bits);
      assert w % TWO64 == w;
      Wrap64ThenMask(w - TWO64, bits);
      assert (w - TWO64) % TWO64 == w;
    }
  }

  /** `x*y + c & MASK` computed in unsigned 64-bit arithmetic is the exact
   *  value reduced modulo 2^bits. */
  lemma MaskedAffine(x: int, y: int, c: int, bits: nat)
    requires bits <= 64
    ensures U64(U64(x * y) + c) % Pow2(bits) == (x * y + c) % Pow2(bits)
  {
    Wrap64ThenMask(U64(x * y) + c, bits);
    WrapAddMask(x * y, c, bits);
  }

  /** A table entry describes a usable generator. */
  predicate WellFormed(G: Generator)
  {
    2 <= G.log2mod <= 63 && G.mult < Pow2(G.log2mod) && G.add < Pow2(G.log2mod)
    && G.stride < TWO64 && G.initseed < TWO64
  }

  /** Every table entry describes a usable generator, with an odd
   *  multiplier and a positive stride. */
  lemma StandardWellFormed(i: nat)
    requires i < |Standard|
    ensures Standard[i].index == i + 1
    ensures Standard[i].log2mod == 48 || Standard[i].log2mod == 63
    ensures WellFormed(Standard[i])
    ensures Standard[i].mult % 2 == 1 && Standard[i].stride > 0
  {
    Pow2At48();
    Pow2At63();
    Pow2At64();
    if i == 0 {
      assert Standard[0].log2mod == 48;
    } else if i == 1 {
      assert Standard[1].log2mod == 63;
    } else if i == 2 {
      assert Standard[2].log2mod == 63;
    } else if i == 3 {
      assert Standard[3].log2mod == 63;
    } else if i == 4 {
      assert Standard[4].log2mod == 63;
    } else if i == 5 {
      assert Standard[5].log2mod == 63;
    } else {
      assert Standard[6].log2mod == 63;
    }
  }

  /** The parameters of the generator in use, with the derived modulus, mask
   *  and period. */
  datatype Params = Params(index: nat, mult: nat, add: nat, bits: nat, stride: nat,
                           modulus: nat, mask: nat, period: nat)
  {
    predicate Valid()
    {
      2 <= bits <= 63 && modulus == Pow2(bits) && mask == modulus - 1
      && period == (if add == 0 then Pow2(bits - 2) else modulus)
      && mult < modulus && add < modulus && stride < TWO64
    }

    /** The recurrence these parameters define. */
    function Gen(): Lcg
    {
      Lcg(mult, add, modulus)
    }
  }

  /** The parameters of table entry G, its stride replaced by a positive
   *  `newStride`: the modulus is 2^log2mod, and the period is a quarter of
   *  it for a purely multiplicative generator. */
  function Load(G: Generator, newStride: nat): (p: Params)
    requires WellFormed(G) && newStride < TWO64
    ensures p.Valid()
    ensures p.Gen() == Lcg(G.mult, G.add, Pow2(G.log2mod)) && p.index == G.index && p.bits == G.log2mod
    ensures p.stride == (if newStride > 0 then newStride else G.stride)
    ensures p.period == (if G.add == 0 then p.modulus / 4 else p.modulus)
  {
    Pow2Bounds(G.log2mod);
    var m := Pow2(G.log2mod);
    Params(G.index, G.mult, G.add, G.log2mod, if newStride > 0 then newStride else G.stride,
           m, m - 1, if G.add == 0 then Pow2(G.log2mod - 2) else m)
  }

  /** The run statistics over finished particles. */
  datatype Stats = Stats(total: nat, strided: nat, max: nat, maxNps: nat)
  {
    predicate Valid()
    {
      total < TWO64 && strided < TWO64 && max < TWO64 && maxNps < TWO64
    }
  }

  /** The generator's state: the globals of the C implementation. */
  class Rng {
    var p: Params
    var seed0: nat
    var seed: nat
    var count: nat
    var nps: nat
    var stats: Stats

    ghost predicate Valid()
      reads this
    {
      p.Valid() && stats.Valid()
      && seed < TWO64 && seed0 < TWO64 && count < TWO64 && nps < TWO64
    }

    /** The static initial values: standard generator 1. */
    constructor ()
      ensures Valid() && WellFormed(Standard[0]) && p == Load(Standard[0], 0)
      ensures p.modulus == 0x1_0000_0000_0000 && p.period == 0x4000_0000_0000
      ensures seed0 == 19073486328125 && seed == seed0 && count == 0 && nps == 0
      ensures stats == Stats(0, 0, 0, 0)
    {
      StandardWellFormed(0);
      Pow2At48();
      p := Load(Standard[0], 0);
      seed0, seed, count, nps := 19073486328125, 19073486328125, 0, 0;
      stats := Stats(0, 0, 0, 0);
    }

    /** Draw one number: advance the seed one step and scale it into [0, 1). */
    method Rang() returns (r: real)
      requires Valid()
      modifies this`seed, this`count
      ensures Valid()
      ensures seed == Next(p.Gen(), old(seed))
      ensures count == (old(count) + 1) % TWO64
      ensures r == seed as real / p.modulus as real
      ensures 0.0 <= r < 1.0
    {
      Pow2Bounds(p.bits);
      MaskedAffine(p.mult, seed, p.add, p.bits);
      seed := U64(U64(p.mult * seed) + p.add) % p.modulus;
      count := U64(count + 1);
      r := seed as real / p.modulus as real;
      RatioBelowOne(seed, p.modulus);
    }

    /** Skip ahead n draws from seed s, by squaring. */
    method SkipAhead(s: nat, n: int) returns (rn: nat)
      requires Valid()
      requires -0x8000_0000_0000_0000 <= n < 0x8000_0000_0000_0000
      ensures rn < p.modulus
      ensures rn == Iterate(p.Gen(), s % p.modulus, Normalized(n, p.period, p.modulus))
    {
      var P := p;
      var nskip := n;
      while nskip < 0
        invariant Normalized(nskip, P.period, P.modulus) == Normalized(n, P.period, P.modulus)
        decreases -nskip
      {
        nskip := nskip + P.period;
      }
      nskip := nskip % P.modulus;
      Pow2Bounds(P.bits);
      var gen, inc := Jump(P.Gen(), P.bits, nskip);
      MaskedAffine(gen, s, inc, P.bits);
      rn := U64(U64(gen * s) + inc) % P.modulus;
      ModMulMod(gen, s, inc, P.modulus);
      IterateIsAffine(P.Gen(), s % P.modulus, nskip);
    }

    /** Load table entry G, override its seed and stride when the inputs are
     *  positive, advance the base seed to particle `part1` and clear every
     *  counter. */
    method Start(G: Generator, newSeed: nat, newStride: nat, newPart1: nat)
      requires WellFormed(G) && newSeed < TWO64 && newStride < TWO64 && newPart1 < TWO64
      modifies this
      ensures Valid() && p == Load(G, newStride)
      ensures
        var base := if newSeed > 0 then newSeed else G.initseed;
        seed0 == if newPart1 > 1
                 then Iterate(p.Gen(), base % p.modulus, Normalized(ToLong((newPart1 - 1) * p.stride), p.period, p.modulus))
                 else base
      ensures seed == seed0 && count == 0 && nps == 0 && stats == Stats(0, 0, 0, 0)
    {
      p := Load(G, newStride);
      Pow2Bounds(p.bits);
      seed0 := if newSeed > 0 then newSeed else G.initseed;
      stats := Stats(0, 0, 0, 0);
      seed, count, nps := seed0, 0, 0;
      if newPart1 > 1 {
        var n := ToLong((newPart1 - 1) * p.stride);
        seed0 := SkipAhead(seed0, n);
        seed := seed0;
      }
    }

    /** Select standard generator `gen` and start it as `Start` does. A
     *  generator index outside 1..7 aborts the run, which the model reports
     *  as `ok == false` with nothing changed. */
    method InitProblem(gen: int, newSeed: nat, newStride: nat, newPart1: nat) returns (ok: bool)
      requires Valid()
      requires newSeed < TWO64 && newStride < TWO64 && newPart1 < TWO64
      modifies this
      ensures ok <==> 1 <= gen <= 7
      ensures !ok ==> unchanged(this)
      ensures ok ==> WellFormed(Standard[gen - 1]) && Valid() && p == Load(Standard[gen - 1], newStride)
      ensures ok ==> p.index == gen
      ensures ok ==>
        var base := if newSeed > 0 then newSeed else Standard[gen - 1].initseed;
        seed0 == if newPart1 > 1
                 then Iterate(p.Gen(), base % p.modulus, Normalized(ToLong((newPart1 - 1) * p.stride), p.period, p.modulus))
                 else base
      ensures ok ==> seed == seed0 && count == 0 && nps == 0 && stats == Stats(0, 0, 0, 0)
    {
      if gen < 1 || gen > 7 {
        return false;
      }
      StandardWellFormed(gen - 1);
      Start(Standard[gen - 1], newSeed, newStride, newPart1);
      ok := true;
    }

    /** Start particle `n`: its seed is the base seed advanced n*stride draws. */
    method InitParticle(n: nat)
      requires Valid() && n < TWO64
      modifies this`seed, this`count, this`nps
      ensures Valid()
      ensures seed == Iterate(p.Gen(), seed0 % p.modulus, Normalized(ToLong(n * p.stride), p.period, p.modulus))
      ensures count == 0 && nps == n
    {
      Pow2Bounds(p.bits);
      seed := SkipAhead(seed0, ToLong(n * p.stride));
      count, nps := 0, n;
    }

    /** The seed particle `n` would start from, without changing the state. */
    method QueryFirst(n: nat) returns (r: nat)
      requires Valid() && n < TWO64
      ensures r < p.modulus
      ensures r == Iterate(p.Gen(), seed0 % p.modulus, Normalized(ToLong(n * p.stride), p.period, p.modulus))
    {
      r := SkipAhead(seed0, ToLong(n * p.stride));
    }

    /** Overwrite one counter, or restart the stream from a new base seed;
     *  any other key is ignored. */
    method Set(key: string, value: nat)
      requires Valid() && value < TWO64
      modifies this`stats, this`seed0, this`seed, this`count, this`nps
      ensures Valid()
      ensures stats.total == (if key == "count_total" then value else old(stats.total))
      ensures stats.strided == (if key == "count_stride" then value else old(stats.strided))
      ensures stats.max == (if key == "count_max" then value else old(stats.max))
      ensures stats.maxNps == (if key == "count_max_nps" then value else old(stats.maxNps))
      ensures key == "seed" ==> seed0 == value && seed == value && count == 0 && nps == 0
      ensures key != "seed" ==> seed0 == old(seed0) && seed == old(seed) && count == old(count) && nps == old(nps)
      ensures key in SetKeys ==> Query(key) == value
      ensures key == "seed" ==> Query("first") == value && Query("count") == 0
    {
      if key == "count_total" {
        stats := stats.(total := value);
      } else if key == "count_stride" {
        stats := stats.(strided := value);
      } else if key == "count_max" {
        stats := stats.(max := value);
      } else if key == "count_max_nps" {
        stats := stats.(maxNps := value);
      } else if key == "seed" {
        seed0 := value;
        seed, count, nps := seed0, 0, 0;
      }
    }

    /** Read one parameter or counter by name; unknown names read as 0. */
    function Query(key: string): (r: nat)
      reads this
      ensures key !in QueryKeys ==> r == 0
      ensures Valid() ==> r < TWO64
    {
      Pow2Below(p.bits, p.add);
      if key == "seed" then seed
      else if key == "stride" then p.stride
      else if key == "mult" then p.mult
      else if key == "add" then p.add
      else if key == "count" then count
      else if key == "period" then p.period
      else if key == "count_total" then stats.total
      else if key == "count_stride" then stats.strided
      else if key == "count_max" then stats.max
      else if key == "count_max_nps" then stats.maxNps
      else if key == "first" then seed0
      else 0
    }

    /** Fold the finished particle's draw count into the run statistics and
     *  clear the per-particle counters. */
    method UpdateStats()
      requires Valid()
      modifies this`stats, this`count, this`nps
      ensures Valid()
      ensures stats.total == (old(stats.total) + old(count)) % TWO64
      ensures stats.max >= old(stats.max) && stats.max >= old(count)
      ensures stats.max == old(stats.max) || stats.max == old(count)
      ensures stats.maxNps == (if old(count) > old(stats.max) then old(nps) else old(stats.maxNps))
      ensures stats.strided == (if old(count) > p.stride then (old(stats.strided) + 1) % TWO64 else old(stats.strided))
      ensures count == 0 && nps == 0
    {
      var st := stats.(total := U64(stats.total + count));
      if count > st.max {
        st := st.(max := count, maxNps := nps);
      }
      if count > p.stride {
        st := st.(strided := U64(st.strided + 1));
      }
      stats, count, nps := st, 0, 0;
    }
  }

  /** The names `Set` accepts, and the names `Query` answers. */
  const SetKeys: set<string> := {"count_total", "count_stride", "count_max", "count_max_nps", "seed"}
  const QueryKeys: set<string> := {"seed", "stride", "mult", "add", "count", "period", "count_total",
                                   "count_stride", "count_max", "count_max_nps", "first"}

  /** Every valid period lies below 2^64. */
  lemma Pow2Below(bits: nat, add: nat)
    ensures 2 <= bits <= 63 ==> Pow2(bits - 2) < TWO64 && Pow2(bits) < TWO64
  {
    if 2 <= bits <= 63 {
      Pow2Bounds(bits);
    }
  }

  /** The reference seeds 1..5 of generator 1 and 1..3 of generator 2,
   *  drawn one at a time from seed 1. */
  lemma ReferenceSeeds()
    ensures var g := Lcg(19073486328125, 0, 0x1_0000_0000_0000);
      Iterate(g, 1, 1) == 19073486328125 && Iterate(g, 1, 2) == 29763723208841
      && Iterate(g, 1, 3) == 187205367447973 && Iterate(g, 1, 4) == 131230026111313
      && Iterate(g, 1, 5) == 264374031214925
    ensures var g := Lcg(9219741426499971445, 1, 0x8000_0000_0000_0000);
      Iterate(g, 1, 1) == 9219741426499971446 && Iterate(g, 1, 2) == 666764808255707375
      && Iterate(g, 1, 3) == 4935109208453540924
  {
  }

  /** Reducing x*y + c in masked 64-bit arithmetic, either operand order. */
  lemma MaskedProduct(x: nat, y: nat, c: nat, m: nat, bits: nat)
    requires bits <= 64 && m == Pow2(bits)
    ensures U64(U64(x * y) + c) % m == (y * x + c) % m
  {
    assert x * y == y * x;
    MaskedAffine(x, y, c, bits);
  }

  /** Composing the a-step and b-step maps in masked 64-bit arithmetic gives
   *  the (a+b)-step map. */
  lemma MaskedCompose(G: Lcg, bits: nat, a: nat, b: nat)
    requires 2 <= bits <= 63 && G.modulus == Pow2(bits)
    ensures U64(U64(Mult(G, a) * Mult(G, b)) + 0) % G.modulus == Mult(G, a + b)
    ensures U64(U64(Incr(G, a) * Mult(G, b)) + Incr(G, b)) % G.modulus == Incr(G, a + b)
    ensures U64(U64(Mult(G, b) * Incr(G, a)) + Incr(G, b)) % G.modulus == Incr(G, a + b)
  {
    var x, y, u, v := Mult(G, a), Mult(G, b), Incr(G, a), Incr(G, b);
    MultAdd(G, a, b);
    IncrAdd(G, a, b);
    MaskedProduct(x, y, 0, G.modulus, bits);
    assert (y * x + 0) % G.modulus == (y * x) % G.modulus;
    MaskedProduct(u, y, v, G.modulus, bits);
    MaskedAffine(y, u, v, bits);
  }

  /** The (multiplier, offset) pair of the n-step map, built by binary
   *  powering in unsigned 64-bit arithmetic masked to `bits` bits. */
  method Jump(G: Lcg, bits: nat, n: nat) returns (gen: nat, inc: nat)
    requires 2 <= bits <= 63 && G.modulus == Pow2(bits)
    requires G.mult < G.modulus && G.add < G.modulus
    ensures gen == Mult(G, n) && inc == Incr(G, n)
  {
    var m := G.modulus;
    Pow2Bounds(bits);
    var nskip := n;
    ghost var done: nat, p: nat := 0, 1;
    var g, c;
    gen, g, inc, c := 1, G.mult, 0, G.add;
    SmallMod(1, m);
    SmallMod(G.mult, m);
    SmallMod(G.add, m);
    assert Mult(G, 0) == 1;
    assert Mult(G, 1) == (G.mult * Mult(G, 0)) % m;
    assert Incr(G, 0) == 0;
    assert Incr(G, 1) == (G.mult * Incr(G, 0) + G.add) % m;
    while nskip > 0
      invariant 0 <= nskip
      invariant n == done + p * nskip
      invariant gen == Mult(G, done) && inc == Incr(G, done)
      invariant g == Mult(G, p) && c == Incr(G, p)
      decreases nskip
    {
      HalveFactor(p, nskip);
      if nskip % 2 == 1 {
        MaskedCompose(G, bits, done, p);
        gen := U64(U64(gen * g) + 0) % m;
        inc := U64(U64(inc * g) + c) % m;
        done := done + p;
      }
      MaskedCompose(G, bits, p, p);
      c := U64(U64(g * c) + c) % m;
      g := U64(U64(g * g) + 0) % m;
      p := p + p;
      nskip := nskip / 2;
    }
  }
}
