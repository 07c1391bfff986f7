/** SHA-256 as FIPS 180-4 defines it, sections 4.1.2, 4.2.2 and 6.2. */
module Sha256Spec {
  import opened Basics
  import opened ShaMessage

  /** The sixty-four constants, eight to a row. */
  type Table = k: seq<seq<bv32>> | |k| == 8 && forall r :: 0 <= r < 8 ==> |k[r]| == 8
    witness seq(8, _ => seq(8, _ => 0))

  datatype Regs = Regs(a: bv32, b: bv32, c: bv32, d: bv32, e: bv32, f: bv32, g: bv32, h: bv32)

  function Rotr(x: bv32, n: bv8): bv32
    requires 0 < n < 32
  {
    (x >> n) | (x << (32 - n))
  }

  function Xor(x: bv32, y: bv32, z: bv32): bv32 { x ^ y ^ z }

  function Sigma0(x: bv32): bv32 { Xor(Rotr(x, 2), Rotr(x, 13), Rotr(x, 22)) }

  function Sigma1(x: bv32): bv32 { Xor(Rotr(x, 6), Rotr(x, 11), Rotr(x, 25)) }

  function Small0(x: bv32): bv32 { Xor(Rotr(x, 7), Rotr(x, 18), x >> 3) }

  function Small1(x: bv32): bv32 { Xor(Rotr(x, 17), Rotr(x, 19), x >> 10) }

  function Sum4(p: bv32, q: bv32, r: bv32, s: bv32): bv32 { p + q + r + s }

  function Sum5(h: bv32, s: bv32, c: bv32, k: bv32, w: bv32): bv32 { h + s + c + k + w }

  /** The next word of the schedule from the words 2, 7, 15 and 16 places back. */
  function Mix(p: bv32, q: bv32, r: bv32, s: bv32): bv32 { Sum4(Small1(p), q, Small0(r), s) }

  /** The message schedule. */
  function W(block: Block, t: nat): bv32 {
    if t < 16 then Word(block[4 * t], block[4 * t + 1], block[4 * t + 2], block[4 * t + 3])
    else Mix(W(block, t - 2), W(block, t - 7), W(block, t - 15), W(block, t - 16))
  }

  function Schedule(block: Block): (w: seq<bv32>)
    ensures |w| == 64
  {
    seq(64, t requires 0 <= t < 64 => W(block, t))
  }

  function T1(r: Regs, k: bv32, w: bv32): bv32 { Sum5(r.h, Sigma1(r.e), Ch(r.e, r.f, r.g), k, w) }

  function T2(r: Regs): bv32 { Plus(Sigma0(r.a), Maj(r.a, r.b, r.c)) }

  /** One round of step 3, with the constant `k` and the schedule word `w`. */
  function Step(r: Regs, k: bv32, w: bv32): Regs {
    Regs(Plus(T1(r, k, w), T2(r)), r.a, r.b, r.c, Plus(r.d, T1(r, k, w)), r.e, r.f, r.g)
  }

  function Rounds(h: Regs, k: Table, w: seq<bv32>): Regs
    requires |w| <= 64
  {
    if w == [] then h else var t := |w| - 1; Step(Rounds(h, k, w[..t]), k[t / 8][t % 8], w[t])
  }

  function Sum(h: Regs, r: Regs): Regs {
    Regs(Plus(h.a, r.a), Plus(h.b, r.b), Plus(h.c, r.c), Plus(h.d, r.d),
         Plus(h.e, r.e), Plus(h.f, r.f), Plus(h.g, r.g), Plus(h.h, r.h))
  }

  /** Section 6.2.2 for one block, with the table of constants `k`. */
  function Compress(k: Table, h: Regs, block: Block): Regs {
    Sum(h, Rounds(h, k, Schedule(block)))
  }

  function DigestBytes(h: Regs): (digest: seq<byte>)
    ensures |digest| == 32
  {
    WordBytes(h.a) + WordBytes(h.b) + WordBytes(h.c) + WordBytes(h.d)
    + WordBytes(h.e) + WordBytes(h.f) + WordBytes(h.g) + WordBytes(h.h)
  }

  /** The hash value after the whole blocks `msg`. */
  ghost function HashFrom(k: Table, h: Regs, msg: seq<byte>): Regs
    requires |msg| % 64 == 0
  {
    Fold((r, block) => Compress(k, r, block), h, msg)
  }

  lemma HashFromBlock(k: Table, h: Regs, msg: seq<byte>, block: Block)
    requires |msg| % 64 == 0
    ensures HashFrom(k, h, msg + block) == Compress(k, HashFrom(k, h, msg), block)
  {
    FoldBlock((r, b) => Compress(k, r, b), h, msg, block);
  }
}
