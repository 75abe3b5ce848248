/**
 * The integer side of the Perlin noise generator in js/engine/Noise.js: the
 * linear-congruential seed recurrence, the 256-entry sample table `p`, its 512-entry
 * extension `perm`, the gradient table `gradP`, and the lattice hashing of `noise`.
 * The floating-point interpolation (`fade`, `mix`, `dot`) and `octaveNoise` are not
 * modelled.
 */
module Noise {

  /** One of the twelve edge-midpoint gradient vectors of the cube. */
  datatype Vec3 = Vec3(x: int, y: int, z: int)

  /** The gradient table `grad3`, in source order. */
  const Grad3: seq<Vec3> := [
    Vec3(1, 1, 0), Vec3(-1, 1, 0), Vec3(1, -1, 0), Vec3(-1, -1, 0),
    Vec3(1, 0, 1), Vec3(-1, 0, 1), Vec3(1, 0, -1), Vec3(-1, 0, -1),
    Vec3(0, 1, 1), Vec3(0, -1, 1), Vec3(0, 1, -1), Vec3(0, -1, -1)
  ]

  /** The modulus of the seed recurrence; every seed after the first lies below it. */
  const Modulus := 233280

  /** Each gradient has exactly two non-zero components, each of magnitude one. */
  lemma Grad3IsEdgeMidpoints(i: int)
    requires 0 <= i < |Grad3|
    ensures -1 <= Grad3[i].x <= 1 && -1 <= Grad3[i].y <= 1 && -1 <= Grad3[i].z <= 1
    ensures Grad3[i].x * Grad3[i].x + Grad3[i].y * Grad3[i].y + Grad3[i].z * Grad3[i].z == 2
  {
  }

  /**
   * One step of `seededRandom`: `(seed * 9301 + 49297) % 233280`. For a non-negative
   * seed the operand is positive, so the JavaScript remainder and Dafny's agree.
   */
  function NextSeed(s: int): (r: int)
    requires s >= 0
    ensures 0 <= r < Modulus
  {
    (s * 9301 + 49297) % Modulus
  }

  /** The seed after `n` calls of `seededRandom`, starting from `s`. */
  function SeedAfter(s: int, n: nat): (r: int)
    requires s >= 0
    ensures r >= 0
    ensures n > 0 ==> r < Modulus
  {
    if n == 0 then s else NextSeed(SeedAfter(s, n - 1))
  }

  /**
   * The sample `floor(seed / 233280 * 256)` that the constructor draws from a seed,
   * written on integers: the largest `q` with `q * 233280 <= seed * 256`.
   */
  function Sample(s: int): int
  {
    (s * 256) / Modulus
  }

  lemma SampleRange(s: int)
    requires 0 <= s < Modulus
    ensures 0 <= Sample(s) < 256
  {
  }

  /** Sample(s) is the floor of the exact quotient that `seededRandom() * 256` computes. */
  lemma SampleIsFloor(s: int)
    requires 0 <= s
    ensures Sample(s) == ((s as real / Modulus as real) * 256.0).Floor
  {
  }

  /** The table `p`: entry `i` is the sample of the seed after `i + 1` steps. */
  function PTable(s: int): (t: seq<int>)
    requires s >= 0
    ensures |t| == 256
    ensures forall i | 0 <= i < 256 :: 0 <= t[i] < 256
  {
    seq(256, i requires 0 <= i < 256 =>
      SampleRange(SeedAfter(s, i + 1)); Sample(SeedAfter(s, i + 1)))
  }

  /** The table `perm`: `p` repeated twice, entry `i` being `p[i & 255]`. */
  predicate IsPermTable(p: seq<int>, perm: seq<int>)
  {
    |p| == 256 && |perm| == 512 && forall i | 0 <= i < 512 :: perm[i] == p[i % 256]
  }

  /** The table `gradP`: entry `i` is the gradient `grad3[perm[i] % 12]`. */
  predicate IsGradTable(perm: seq<int>, gradP: seq<Vec3>)
  {
    |perm| == 512 && |gradP| == 512 &&
    forall i | 0 <= i < 512 :: perm[i] >= 0 && gradP[i] == Grad3[perm[i] % 12]
  }

  /** For `0 <= i`, `i & 255` is `i % 256`; the model uses the latter. */
  lemma PermRepeats(p: seq<int>, perm: seq<int>, i: int)
    requires IsPermTable(p, perm)
    requires 0 <= i < 256
    ensures perm[i] == perm[i + 256] == p[i]
  {
  }

  lemma PermRange(p: seq<int>, perm: seq<int>, i: int)
    requires IsPermTable(p, perm)
    requires forall j | 0 <= j < 256 :: 0 <= p[j] < 256
    requires 0 <= i < 512
    ensures 0 <= perm[i] < 256
  {
  }

  /** Every entry of `gradP` is one of the twelve gradients, chosen by an index in [0, 12). */
  lemma GradPInTable(perm: seq<int>, gradP: seq<Vec3>, i: int)
    requires IsGradTable(perm, gradP)
    requires 0 <= i < 512
    ensures 0 <= perm[i] % 12 < 12
    ensures gradP[i] in Grad3
  {
  }

  /** Every entry of `perm` is an index into the tables. */
  lemma PermTableRange(p: seq<int>, perm: seq<int>)
    requires IsPermTable(p, perm)
    requires forall j | 0 <= j < 256 :: 0 <= p[j] < 256
    ensures forall i | 0 <= i < 512 :: 0 <= perm[i] < 256
  {
    forall i | 0 <= i < 512 ensures 0 <= perm[i] < 256 {
      PermRange(p, perm, i);
    }
  }

  /** Every entry of `gradP` is one of the twelve gradients. */
  lemma GradTableEntries(perm: seq<int>, gradP: seq<Vec3>)
    requires IsGradTable(perm, gradP)
    ensures forall i | 0 <= i < 512 :: gradP[i] in Grad3
  {
    forall i | 0 <= i < 512 ensures gradP[i] in Grad3 {
      GradPInTable(perm, gradP, i);
    }
  }

  /** `Math.floor(x) & 255`: the lattice cell of `x`, reduced to the low eight bits. */
  function LatticeCoord(x: real): (c: int)
    ensures 0 <= c < 256
    ensures (x.Floor - c) % 256 == 0
  {
    x.Floor % 256
  }

  /** The hashes of the eight corners of a lattice cell, as `noise` computes them. */
  datatype Hashes = Hashes(a: int, b: int, aa: int, ab: int, ba: int, bb: int)

  function CellHashes(perm: seq<int>, X: int, Y: int, Z: int): Hashes
    requires |perm| == 512
    requires 0 <= X < 256 && 0 <= Y < 256
    requires forall i | 0 <= i < 512 :: 0 <= perm[i] < 256
  {
    var a := perm[X] + Y;
    var b := perm[X + 1] + Y;
    Hashes(a, b, perm[a] + Z, perm[a + 1] + Z, perm[b] + Z, perm[b + 1] + Z)
  }

  /**
   * Every index `noise` uses is inside the 512-entry tables: `X + 1`, `A`, `A + 1`,
   * `B`, `B + 1`, the four corner hashes and each corner hash plus one.
   */
  lemma HashIndicesInRange(perm: seq<int>, X: int, Y: int, Z: int)
    requires |perm| == 512
    requires 0 <= X < 256 && 0 <= Y < 256 && 0 <= Z < 256
    requires forall i | 0 <= i < 512 :: 0 <= perm[i] < 256
    ensures var h := CellHashes(perm, X, Y, Z);
      0 <= X + 1 < 512 &&
      0 <= h.a && h.a + 1 < 512 && 0 <= h.b && h.b + 1 < 512 &&
      0 <= h.aa && h.aa + 1 < 512 && 0 <= h.ab && h.ab + 1 < 512 &&
      0 <= h.ba && h.ba + 1 < 512 && 0 <= h.bb && h.bb + 1 < 512
  {
  }

  /**
   * The gradients of the eight corners of lattice cell (X, Y, Z), in the order of the
   * `dot` calls of `noise`: corners AA, BA, AB, BB, then the same four one step up in z.
   */
  function CellGradients(perm: seq<int>, gradP: seq<Vec3>, X: int, Y: int, Z: int): (g: seq<Vec3>)
    requires |perm| == 512 && |gradP| == 512
    requires 0 <= X < 256 && 0 <= Y < 256 && 0 <= Z < 256
    requires forall i | 0 <= i < 512 :: 0 <= perm[i] < 256
    requires forall i | 0 <= i < 512 :: gradP[i] in Grad3
    ensures |g| == 8
    ensures forall i | 0 <= i < 8 :: g[i] in Grad3
  {
    HashIndicesInRange(perm, X, Y, Z);
    var h := CellHashes(perm, X, Y, Z);
    [gradP[h.aa], gradP[h.ba], gradP[h.ab], gradP[h.bb],
     gradP[h.aa + 1], gradP[h.ba + 1], gradP[h.ab + 1], gradP[h.bb + 1]]
  }

  /** The generator: its running seed and the three tables the constructor fills. */
  class Noise {
    var seed: int
    const p: array<int>
    const perm: array<int>
    const gradP: array<Vec3>

    ghost predicate Valid()
      reads this, p, perm, gradP
    {
      seed >= 0 && p != perm &&
      p.Length == 256 && perm.Length == 512 && gradP.Length == 512 &&
      (forall i | 0 <= i < 256 :: 0 <= p[i] < 256) &&
      IsPermTable(p[..], perm[..]) && IsGradTable(perm[..], gradP[..])
    }

    /**
     * The constructor: 256 calls of `seededRandom` fill `p`, then `perm` and `gradP`
     * are derived from it. The tables are functions of the initial seed alone, so two
     * generators built from the same seed have identical tables.
     */
    constructor(initialSeed: int)
      requires initialSeed >= 0
      ensures Valid()
      ensures seed == SeedAfter(initialSeed, 256)
      ensures p[..] == PTable(initialSeed)
      ensures IsPermTable(p[..], perm[..]) && IsGradTable(perm[..], gradP[..])
      ensures fresh(p) && fresh(perm) && fresh(gradP)
    {
      seed := initialSeed;
      p := new int[256];
      perm := new int[512];
      gradP := new Vec3[512](_ => Grad3[0]);
      new;
      FillSamples(initialSeed);
      FillPermutation();
    }

    /** The constructor's first loop: 256 calls of `seededRandom`, one entry of `p` each. */
    method FillSamples(ghost initialSeed: int)
      requires initialSeed >= 0 && seed == initialSeed && p.Length == 256
      modifies this, p
      ensures seed == SeedAfter(initialSeed, 256)
      ensures p[..] == PTable(initialSeed)
    {
      for i := 0 to 256
        invariant seed == SeedAfter(initialSeed, i)
        invariant forall j | 0 <= j < i :: p[j] == Sample(SeedAfter(initialSeed, j + 1))
      {
        var r := SeededRandom();
        SampleIsFloor(seed);
        p[i] := (r * 256.0).Floor;
      }
      assert p[..] == PTable(initialSeed);
    }

    /** The constructor's second loop: `perm` repeats `p`, `gradP` picks each entry's gradient. */
    method FillPermutation()
      requires p.Length == 256 && perm.Length == 512 && gradP.Length == 512
      requires p != perm && seed >= 0
      requires forall i | 0 <= i < 256 :: 0 <= p[i] < 256
      modifies perm, gradP
      ensures Valid()
      ensures IsPermTable(p[..], perm[..]) && IsGradTable(perm[..], gradP[..])
    {
      for i := 0 to 512
        invariant forall j | 0 <= j < i :: perm[j] == p[j % 256]
        invariant forall j | 0 <= j < i :: perm[j] >= 0 && gradP[j] == Grad3[perm[j] % 12]
      {
        perm[i] := p[i % 256];
        gradP[i] := Grad3[perm[i] % 12];
      }
      assert IsPermTable(p[..], perm[..]);
      assert IsGradTable(perm[..], gradP[..]);
    }

    /** `seededRandom`: advances the seed one step and returns it scaled into [0, 1). */
    method SeededRandom() returns (r: real)
      requires seed >= 0
      modifies this
      ensures seed == NextSeed(old(seed))
      ensures r == seed as real / Modulus as real
      ensures 0.0 <= r < 1.0
    {
      seed := NextSeed(seed);
      r := seed as real / Modulus as real;
    }

    /**
     * The integer part of `noise(x, y, z)`: the gradients it reads for the eight
     * corners of the lattice cell holding the point, in the order of the source's
     * `dot` calls. Every lookup is in range and each result is one of the twelve
     * gradients.
     */
    function CornerGradients(x: real, y: real, z: real): (g: seq<Vec3>)
      requires Valid()
      reads this, p, perm, gradP
      ensures |g| == 8
      ensures forall i | 0 <= i < 8 :: g[i] in Grad3
    {
      var X, Y, Z := LatticeCoord(x), LatticeCoord(y), LatticeCoord(z);
      var pm, gp := perm[..], gradP[..];
      PermTableRange(p[..], pm);
      GradTableEntries(pm, gp);
      CellGradients(pm, gp, X, Y, Z)
    }
  }
}
