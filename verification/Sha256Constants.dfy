/** The constants of SHA-256, sections 4.2.2 and 5.3.3 of FIPS 180-4: the first 32 bits of the
    fractional parts of the cube roots of the first sixty-four primes, and of the square roots of the
    first eight. The tables are written eight entries to a row. */
module Sha256Constants {

  const PRIMES: seq<seq<nat>> := [
    [2, 3, 5, 7, 11, 13, 17, 19],
    [23, 29, 31, 37, 41, 43, 47, 53],
    [59, 61, 67, 71, 73, 79, 83, 89],
    [97, 101, 103, 107, 109, 113, 127, 131],
    [137, 139, 149, 151, 157, 163, 167, 173],
    [179, 181, 191, 193, 197, 199, 211, 223],
    [227, 229, 233, 239, 241, 251, 257, 263],
    [269, 271, 277, 281, 283, 293, 307, 311]
  ]

  /** The source's table `k`. */
  const K: seq<seq<bv32>> := [
    [0x428a2f98, 0x71374491, 0xb5c0fbcf, 0xe9b5dba5, 0x3956c25b, 0x59f111f1, 0x923f82a4, 0xab1c5ed5],
    [0xd807aa98, 0x12835b01, 0x243185be, 0x550c7dc3, 0x72be5d74, 0x80deb1fe, 0x9bdc06a7, 0xc19bf174],
    [0xe49b69c1, 0xefbe4786, 0x0fc19dc6, 0x240ca1cc, 0x2de92c6f, 0x4a7484aa, 0x5cb0a9dc, 0x76f988da],
    [0x983e5152, 0xa831c66d, 0xb00327c8, 0xbf597fc7, 0xc6e00bf3, 0xd5a79147, 0x06ca6351, 0x14292967],
    [0x27b70a85, 0x2e1b2138, 0x4d2c6dfc, 0x53380d13, 0x650a7354, 0x766a0abb, 0x81c2c92e, 0x92722c85],
    [0xa2bfe8a1, 0xa81a664b, 0xc24b8b70, 0xc76c51a3, 0xd192e819, 0xd6990624, 0xf40e3585, 0x106aa070],
    [0x19a4c116, 0x1e376c08, 0x2748774c, 0x34b0bcb5, 0x391c0cb3, 0x4ed8aa4a, 0x5b9cca4f, 0x682e6ff3],
    [0x748f82ee, 0x78a5636f, 0x84c87814, 0x8cc70208, 0x90befffa, 0xa4506ceb, 0xbef9a3f7, 0xc67178f2]
  ]

  /** The initial hash value. */
  const INITIAL: seq<bv32> := [
    0x6a09e667, 0xbb67ae85, 0x3c6ef372, 0xa54ff53a, 0x510e527f, 0x9b05688c, 0x1f83d9ab, 0x5be0cd19
  ]

  /** The cube roots with 32 binary digits after the point, rounded down. */
  const ROOTS: seq<seq<nat>> := [
    [0x1428a2f98, 0x171374491, 0x1b5c0fbcf, 0x1e9b5dba5, 0x23956c25b, 0x259f111f1, 0x2923f82a4, 0x2ab1c5ed5],
    [0x2d807aa98, 0x312835b01, 0x3243185be, 0x3550c7dc3, 0x372be5d74, 0x380deb1fe, 0x39bdc06a7, 0x3c19bf174],
    [0x3e49b69c1, 0x3efbe4786, 0x40fc19dc6, 0x4240ca1cc, 0x42de92c6f, 0x44a7484aa, 0x45cb0a9dc, 0x476f988da],
    [0x4983e5152, 0x4a831c66d, 0x4b00327c8, 0x4bf597fc7, 0x4c6e00bf3, 0x4d5a79147, 0x506ca6351, 0x514292967],
    [0x527b70a85, 0x52e1b2138, 0x54d2c6dfc, 0x553380d13, 0x5650a7354, 0x5766a0abb, 0x581c2c92e, 0x592722c85],
    [0x5a2bfe8a1, 0x5a81a664b, 0x5c24b8b70, 0x5c76c51a3, 0x5d192e819, 0x5d6990624, 0x5f40e3585, 0x6106aa070],
    [0x619a4c116, 0x61e376c08, 0x62748774c, 0x634b0bcb5, 0x6391c0cb3, 0x64ed8aa4a, 0x65b9cca4f, 0x6682e6ff3],
    [0x6748f82ee, 0x678a5636f, 0x684c87814, 0x68cc70208, 0x690befffa, 0x6a4506ceb, 0x6bef9a3f7, 0x6c67178f2]
  ]

  /** `k` is the first 32 bits of the fractional part of the cube root of `p`. */
  ghost predicate CubeRootBits(p: nat, k: bv32) {
    exists x: nat :: IsCubeRoot(p, x, k)
  }

  predicate IsCubeRoot(p: nat, x: nat, k: bv32) {
    && x * x * x <= p * 0x1_0000_0000_0000_0000_0000_0000 < (x + 1) * (x + 1) * (x + 1)
    && x % 0x1_0000_0000 == k as nat
  }

  predicate RowOfRoots(ps: seq<nat>, xs: seq<nat>, ks: seq<bv32>) {
    && |ps| == |xs| == |ks| == 8
    && IsCubeRoot(ps[0], xs[0], ks[0]) && IsCubeRoot(ps[1], xs[1], ks[1])
    && IsCubeRoot(ps[2], xs[2], ks[2]) && IsCubeRoot(ps[3], xs[3], ks[3])
    && IsCubeRoot(ps[4], xs[4], ks[4]) && IsCubeRoot(ps[5], xs[5], ks[5])
    && IsCubeRoot(ps[6], xs[6], ks[6]) && IsCubeRoot(ps[7], xs[7], ks[7])
  }

  lemma Row0()
    ensures RowOfRoots(PRIMES[0], ROOTS[0], K[0])
  {
  }

  lemma Row1()
    ensures RowOfRoots(PRIMES[1], ROOTS[1], K[1])
  {
  }

  lemma Row2()
    ensures RowOfRoots(PRIMES[2], ROOTS[2], K[2])
  {
  }

  lemma Row3()
    ensures RowOfRoots(PRIMES[3], ROOTS[3], K[3])
  {
  }

  lemma Row4()
    ensures RowOfRoots(PRIMES[4], ROOTS[4], K[4])
  {
  }

  lemma Row5()
    ensures RowOfRoots(PRIMES[5], ROOTS[5], K[5])
  {
  }

  lemma Row6()
    ensures RowOfRoots(PRIMES[6], ROOTS[6], K[6])
  {
  }

  lemma Row7()
    ensures RowOfRoots(PRIMES[7], ROOTS[7], K[7])
  {
  }

  lemma RowGives(ps: seq<nat>, xs: seq<nat>, ks: seq<bv32>, j: nat)
    requires RowOfRoots(ps, xs, ks) && j < 8
    ensures CubeRootBits(ps[j], ks[j])
  {
    assert IsCubeRoot(ps[j], xs[j], ks[j]);
  }

  lemma AllRows(r: nat)
    requires r < 8
    ensures RowOfRoots(PRIMES[r], ROOTS[r], K[r])
  {
    match r {
      case 0 => Row0();
      case 1 => Row1();
      case 2 => Row2();
      case 3 => Row3();
      case 4 => Row4();
      case 5 => Row5();
      case 6 => Row6();
      case 7 => Row7();
    }
  }

  /** Section 4.2.2. */
  lemma ConstantsAreCubeRoots(r: nat, j: nat)
    requires r < 8 && j < 8
    ensures |PRIMES[r]| == |K[r]| == 8 && CubeRootBits(PRIMES[r][j], K[r][j])
  {
    AllRows(r);
    RowGives(PRIMES[r], ROOTS[r], K[r], j);
  }

  /** `h` is the first 32 bits of the fractional part of the square root of `p`. */
  ghost predicate SquareRootBits(p: nat, h: bv32) {
    exists x: nat :: IsSquareRoot(p, x, h)
  }

  predicate IsSquareRoot(p: nat, x: nat, h: bv32) {
    && x * x <= p * 0x1_0000_0000_0000_0000 < (x + 1) * (x + 1)
    && x % 0x1_0000_0000 == h as nat
  }

  /** Section 5.3.3. */
  lemma InitialAreSquareRoots(j: nat)
    requires j < 8
    ensures |PRIMES| == 8 && |PRIMES[0]| == |INITIAL| == 8 && SquareRootBits(PRIMES[0][j], INITIAL[j])
  {
    assert IsSquareRoot(2, 0x16a09e667, 0x6a09e667);
    assert IsSquareRoot(3, 0x1bb67ae85, 0xbb67ae85);
    assert IsSquareRoot(5, 0x23c6ef372, 0x3c6ef372);
    assert IsSquareRoot(7, 0x2a54ff53a, 0xa54ff53a);
    assert IsSquareRoot(11, 0x3510e527f, 0x510e527f);
    assert IsSquareRoot(13, 0x39b05688c, 0x9b05688c);
    assert IsSquareRoot(17, 0x41f83d9ab, 0x1f83d9ab);
    assert IsSquareRoot(19, 0x45be0cd19, 0x5be0cd19);
    assert PRIMES[0] == [2, 3, 5, 7, 11, 13, 17, 19];
  }
}
