/** `redisLrand48`: the 48-bit linear congruential generator, computed on three 16-bit limbs.

    The specification is the one-line recurrence of drand48() in IEEE Std 1003.1. The implementation
    keeps the source's limb macros, with its 32-bit truncations written out. */
module Lrand48 {

  const A := 0x5_DEEC_E66D
  const C := 0xB
  const TWO48 := 0x1_0000_0000_0000
  const TWO32 := 0x1_0000_0000
  const TWO16 := 0x1_0000

  const A0 := 0xE66D
  const A1 := 0xDEEC
  const A2 := 0x5
  const X0 := 0x330E
  const X1 := 0xABCD
  const X2 := 0x1234

  type limb = v: int | 0 <= v < 0x1_0000

  // ---------------------------------------------------------------- specification

  /** One step of the recurrence. */
  function Step(x: nat): nat {
    (A * x + C) % TWO48
  }

  function Iterate(x: nat, n: nat): nat {
    if n == 0 then x else Step(Iterate(x, n - 1))
  }

  /** The state `srand48` starts from: the low 32 bits of the seed above a fixed low limb. */
  function Seeded(seed: int): nat {
    seed % TWO32 * TWO16 + X0
  }

  // ---------------------------------------------------------------- limb arithmetic

  /** The cast to a signed 32-bit integer. */
  function Int32(v: int): int {
    (v + 0x8000_0000) % TWO32 - 0x8000_0000
  }

  function Low(v: int): limb {
    v % TWO16
  }

  /** The next sixteen bits, by an arithmetic shift. */
  function High(v: int): limb {
    Low(v / TWO16)
  }

  /** Carry out of a 16-bit addition. */
  function Carry(x: int, y: int): nat {
    if x + y >= TWO16 then 1 else 0
  }

  function Combine(x0: nat, x1: nat, x2: nat): nat {
    x0 + x1 * TWO16 + x2 * TWO32
  }

  lemma ProductFits(x: limb, y: limb)
    ensures 0 <= (x as int) * (y as int) < TWO32
  {
    MultiplyMonotone(x, y, 0xFFFF);
    MultiplyMonotone(0xFFFF, x, 0xFFFF);
  }

  lemma MultiplyMonotone(a: nat, b: nat, c: nat)
    requires b <= c
    ensures 0 <= a * b <= a * c
  {
    assert a * c == a * b + a * (c - b);
  }

  /** Truncating to a signed 32-bit integer loses none of the 32 bits. */
  lemma LimbsOfProduct(p: int)
    requires 0 <= p < TWO32
    ensures Low(Int32(p)) as int + High(Int32(p)) as int * TWO16 == p
  {
    if p < 0x8000_0000 {
      assert Int32(p) == p;
      assert p / TWO16 < TWO16;
    } else {
      assert Int32(p) == p - TWO32;
      assert (p - TWO32) / TWO16 == p / TWO16 - TWO16;
    }
  }

  method Multiply(x: limb, y: limb) returns (low: limb, high: limb)
    ensures low as int + high as int * TWO16 == (x as int) * (y as int)
  {
    ProductFits(x, y);
    var product := (x as int) * (y as int);
    LimbsOfProduct(product);
    low, high := Low(Int32(product)), High(Int32(product));
  }

  method Add(x: limb, y: limb) returns (sum: limb, carry: nat)
    ensures carry <= 1 && sum as int + carry * TWO16 == x as int + y as int
  {
    carry := Carry(x, y);
    sum := Low(x as int + y as int);
  }

  // ---------------------------------------------------------------- the generator

  class Generator {
    var x0: limb
    var x1: limb
    var x2: limb

    /** The limbs read as one 48-bit number. */
    ghost function Value(): (v: nat)
      reads this
      ensures v < TWO48
    {
      Combine(x0, x1, x2)
    }

    constructor ()
      ensures Value() == 0x1234_ABCD_330E
    {
      x0, x1, x2 := X0, X1, X2;
    }

    /** `next`: one step of the recurrence, with every carry. */
    method Next()
      modifies this
      ensures Value() == Step(old(Value()))
    {
      x0, x1, x2 := NextLimbs(x0, x1, x2);
    }

    /** `redisLrand48`: a step, then the top 31 of the 48 bits. */
    method Lrand() returns (r: int)
      modifies this
      ensures Value() == Step(old(Value()))
      ensures r == Value() / 0x2_0000 && 0 <= r < 0x8000_0000
    {
      Next();
      r := x2 * 0x8000 + x1 / 2;
    }

    /** `redisSrand48`. */
    method Srand(seed: int)
      requires -0x8000_0000 <= seed < 0x8000_0000
      modifies this
      ensures Value() == Seeded(seed)
    {
      x0, x1, x2 := X0, Low(seed), High(seed);
    }
  }

  /** The limb computation of one step: products of limbs, each addition with its carry, and
      a top limb that collects everything of weight 2^32 and drops what lies above 2^48. */
  lemma LimbsStep(x0: limb, x1: limb, x2: limb, p0: int, p1: int, s0: limb, c0: nat, s1: limb, c1: nat,
                  q0: int, q1: int, s2: limb, c2: nat, r0: int, r1: int, y1: limb, c3: nat, top: nat)
    requires p0 + p1 * TWO16 == A0 * x0 && q0 + q1 * TWO16 == A0 * x1 && r0 + r1 * TWO16 == A1 * x0
    requires s0 + c0 * TWO16 == p0 + C
    requires s1 + c1 * TWO16 == p1 + c0
    requires s2 + c2 * TWO16 == s1 + q0
    requires y1 + c3 * TWO16 == s2 + r0
    requires top == c2 + c1 + c3 + q1 + r1 + A0 * x2 + A1 * x1 + A2 * x0
    ensures Combine(s0, y1, Low(top % TWO32)) == Step(Combine(x0, x1, x2))
  {
    var y2 := Low(top % TWO32);
    var above := top / TWO16 + A1 * x2 + A2 * x1 + A2 * x2 * TWO16;
    LowOfWide(top);
    assert A * Combine(x0, x1, x2) + C == Combine(s0, y1, y2) + above * TWO48;
    Remainder(Combine(s0, y1, y2), above);
  }

  /** All that has the weight of the top limb. */
  function Top(carries: nat, q1: limb, r1: limb, x0: limb, x1: limb, x2: limb): (top: nat)
    ensures top == carries + q1 as int + r1 as int + A0 * x2 as int + A1 * x1 as int + A2 * x0 as int
  {
    MultiplyMonotone(A0, 0, x2);
    MultiplyMonotone(A1, 0, x1);
    MultiplyMonotone(A2, 0, x0);
    carries + q1 as int + r1 as int + A0 * x2 as int + A1 * x1 as int + A2 * x0 as int
  }

  lemma LowOfWide(v: nat)
    ensures Low(v % TWO32) == v % TWO16
  {
  }

  /** The body of `next`, on the three limbs. */
  method NextLimbs(x0: limb, x1: limb, x2: limb) returns (y0: limb, y1: limb, y2: limb)
    ensures Combine(y0, y1, y2) == Step(Combine(x0, x1, x2))
  {
    var p0, p1 := Multiply(A0, x0);
    var s0, carry0 := Add(p0, C);
    var s1, carry1 := Add(p1, carry0);
    var q0, q1 := Multiply(A0, x1);
    var s2, carry2 := Add(s1, q0);
    var r0, r1 := Multiply(A1, x0);
    var carry3;
    y1, carry3 := Add(s2, r0);
    var top := Top(carry2 + carry1 + carry3, q1, r1, x0, x1, x2);
    y0, y2 := s0, Low(top % TWO32);
    LimbsStep(x0, x1, x2, p0, p1, s0, carry0, s1, carry1, q0, q1, s2, carry2, r0, r1, y1, carry3, top);
  }

  lemma Remainder(v: nat, k: nat)
    requires v < TWO48
    ensures (v + k * TWO48) % TWO48 == v
  {
  }

  /** The first draws after the seed 0, which are those of `lrand48` after `srand48(0)`. */
  lemma FirstDraws()
    ensures Iterate(Seeded(0), 1) / 0x2_0000 == 366850414 && Iterate(Seeded(0), 2) / 0x2_0000 == 1610402240
    ensures Iterate(Seeded(0), 3) / 0x2_0000 == 206956554 && Iterate(Seeded(0), 4) / 0x2_0000 == 1869309841
  {
    assert Iterate(Seeded(0), 1) == 48083817484545;
    assert Iterate(Seeded(0), 2) == 211078642492280;
    assert Iterate(Seeded(0), 3) == 27126209522211;
    assert Iterate(Seeded(0), 4) == 245014179504882;
  }

  /** After seeding, the n-th draw is the top 31 bits of the n-th iterate of the recurrence. */
  method Draws(seed: int, n: nat) returns (draws: seq<int>)
    requires -0x8000_0000 <= seed < 0x8000_0000
    ensures |draws| == n
    ensures forall k :: 0 <= k < n ==> draws[k] == Iterate(Seeded(seed), k + 1) / 0x2_0000
  {
    var g := new Generator();
    g.Srand(seed);
    draws := [];
    while |draws| < n
      invariant |draws| <= n
      invariant g.Value() == Iterate(Seeded(seed), |draws|)
      invariant forall k :: 0 <= k < |draws| ==> draws[k] == Iterate(Seeded(seed), k + 1) / 0x2_0000
    {
      var r := g.Lrand();
      draws := draws + [r];
    }
  }
}
