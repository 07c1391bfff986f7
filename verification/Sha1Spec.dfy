/** SHA-1 as FIPS 180-4 defines it, sections 6.1.1 and 6.1.2, and what a run of `Sha1::transform`
    keeps from round to round. */
module Sha1Spec {
  import opened Basics
  import opened ShaMessage

  // ---------------------------------------------------------------- FIPS 180-4

  /** The working variables; also the hash value. */
  datatype Regs = Regs(a: bv32, b: bv32, c: bv32, d: bv32, e: bv32)

  function Rotl(x: bv32, n: bv8): bv32
    requires 0 < n < 32
  {
    (x << n) | (x >> (32 - n))
  }

  function Parity(x: bv32, y: bv32, z: bv32): bv32 { x ^ y ^ z }

  /** The function and the constant of round `t`, sections 4.1.1 and 4.2.1. */
  function F(t: nat, x: bv32, y: bv32, z: bv32): bv32 {
    if t < 20 then Ch(x, y, z) else if 40 <= t < 60 then Maj(x, y, z) else Parity(x, y, z)
  }

  function K(t: nat): bv32 {
    if t < 20 then 0x5a827999 else if t < 40 then 0x6ed9eba1 else if t < 60 then 0x8f1bbcdc else 0xca62c1d6
  }

  /** The message schedule. */
  function W(block: Block, t: nat): bv32 {
    if t < 16 then Word(block[4 * t], block[4 * t + 1], block[4 * t + 2], block[4 * t + 3])
    else Mix(W(block, t - 3), W(block, t - 8), W(block, t - 14), W(block, t - 16))
  }

  function Mix(p: bv32, q: bv32, r: bv32, s: bv32): bv32 { Rotl(p ^ q ^ r ^ s, 1) }

  function Schedule(block: Block): (w: seq<bv32>)
    ensures |w| == 80
  {
    seq(80, t requires 0 <= t < 80 => W(block, t))
  }

  /** Round `t` of step 3. */
  function Step(r: Regs, t: nat, w: bv32): Regs {
    Regs(Sum5(Rotl(r.a, 5), F(t, r.b, r.c, r.d), r.e, K(t), w), r.a, Rotl(r.b, 30), r.c, r.d)
  }

  function Sum5(a: bv32, f: bv32, e: bv32, k: bv32, w: bv32): bv32 { a + f + e + k + w }

  function Rounds(h: Regs, w: seq<bv32>): Regs {
    if w == [] then h else Step(Rounds(h, w[..|w| - 1]), |w| - 1, w[|w| - 1])
  }

  function Sum(h: Regs, r: Regs): Regs {
    Regs(Plus(h.a, r.a), Plus(h.b, r.b), Plus(h.c, r.c), Plus(h.d, r.d), Plus(h.e, r.e))
  }

  /** Section 6.1.2 for one block. */
  function Compress(h: Regs, block: Block): Regs {
    Sum(h, Rounds(h, Schedule(block)))
  }

  const INITIAL := Regs(0x67452301, 0xefcdab89, 0x98badcfe, 0x10325476, 0xc3d2e1f0)

  /** The hash value after the whole blocks `msg`. */
  ghost function HashFrom(h: Regs, msg: seq<byte>): Regs
    requires |msg| % 64 == 0
  {
    Fold((r, block) => Compress(r, block), h, msg)
  }

  lemma HashFromBlock(h: Regs, msg: seq<byte>, block: Block)
    requires |msg| % 64 == 0
    ensures HashFrom(h, msg + block) == Compress(HashFrom(h, msg), block)
  {
    FoldBlock((r, b) => Compress(r, b), h, msg, block);
  }

  ghost function Hash(msg: seq<byte>): (digest: seq<byte>)
    ensures |digest| == 20
  {
    DigestBytes(HashFrom(INITIAL, Padded(msg)))
  }

  function DigestBytes(h: Regs): (digest: seq<byte>)
    ensures |digest| == 20
  {
    WordBytes(h.a) + WordBytes(h.b) + WordBytes(h.c) + WordBytes(h.d) + WordBytes(h.e)
  }

  // ---------------------------------------------------------------- runs of transform

  /** The words of a block as the host reads them, its schedule, and its working variables before
      every round. */
  datatype Record = Record(raw: seq<bv32>, w: seq<bv32>, regs: seq<Regs>)

  type Trace = g: Record | IsTrace(g) ghost witness TraceOf(INITIAL, seq(64, _ => 0))

  ghost predicate IsTrace(g: Record) {
    && |g.raw| == 16 && |g.w| == 80 && |g.regs| == 81
    && (forall t {:trigger Swapped(g, t)} :: 0 <= t < 16 ==> Swapped(g, t))
    && (forall t {:trigger Expanded(g, t)} :: 16 <= t < 80 ==> Expanded(g, t))
    && (forall t {:trigger Stepped(g, t)} :: 0 <= t < 80 ==> Stepped(g, t))
  }

  ghost predicate Swapped(g: Record, t: int)
    requires |g.raw| == 16 && |g.w| == 80 && 0 <= t < 16
  {
    Swap(g.raw[t]) == g.w[t]
  }

  ghost predicate Expanded(g: Record, t: int)
    requires |g.w| == 80 && 16 <= t < 80
  {
    var w := g.w;
    w[t] == Mix(w[t - 3], w[t - 8], w[t - 14], w[t - 16])
  }

  ghost predicate Stepped(g: Record, t: int)
    requires |g.w| == 80 && |g.regs| == 81 && 0 <= t < 80
  {
    g.regs[t + 1] == Step(g.regs[t], t, g.w[t])
  }

  /** The machine's own reading of four bytes, on a little-endian host. */
  function LittleEndian(b0: byte, b1: byte, b2: byte, b3: byte): bv32 {
    Bits(b0) | (Bits(b1) << 8) | (Bits(b2) << 16) | (Bits(b3) << 24)
  }

  function Swap(x: bv32): bv32 {
    (Rotl(x, 24) & 0xff00ff00) | (Rotl(x, 8) & 0x00ff00ff)
  }

  lemma SwapReverses(x0: bv32, x1: bv32, x2: bv32, x3: bv32)
    requires x0 <= 255 && x1 <= 255 && x2 <= 255 && x3 <= 255
    ensures Swap(x0 | (x1 << 8) | (x2 << 16) | (x3 << 24)) == (x0 << 24) | (x1 << 16) | (x2 << 8) | x3
  {
  }

  lemma SwapReadsWord(b0: byte, b1: byte, b2: byte, b3: byte)
    ensures Swap(LittleEndian(b0, b1, b2, b3)) == Word(b0, b1, b2, b3)
  {
    BitsFit(b0);
    BitsFit(b1);
    BitsFit(b2);
    BitsFit(b3);
    SwapReverses(Bits(b0), Bits(b1), Bits(b2), Bits(b3));
  }

  function RawWord(block: Block, t: nat): bv32
    requires t < 16
  {
    LittleEndian(block[4 * t], block[4 * t + 1], block[4 * t + 2], block[4 * t + 3])
  }

  ghost function RegsAt(h: Regs, w: seq<bv32>): (r: seq<Regs>)
    ensures |r| == |w| + 1 && forall t :: 0 <= t <= |w| ==> r[t] == Rounds(h, w[..t])
  {
    seq(|w| + 1, t requires 0 <= t <= |w| => Rounds(h, w[..t]))
  }

  lemma RoundsStep(h: Regs, w: seq<bv32>, t: nat)
    requires t < |w|
    ensures Rounds(h, w[..t + 1]) == Step(Rounds(h, w[..t]), t, w[t])
  {
    assert w[..t + 1][..t] == w[..t];
  }

  ghost function RecordOf(h: Regs, block: Block): Record {
    Record(seq(16, t requires 0 <= t < 16 => RawWord(block, t)), Schedule(block), RegsAt(h, Schedule(block)))
  }

  lemma RecordSwapped(h: Regs, block: Block, t: nat)
    requires t < 16
    ensures Swapped(RecordOf(h, block), t)
  {
    SwapReadsWord(block[4 * t], block[4 * t + 1], block[4 * t + 2], block[4 * t + 3]);
  }

  lemma ScheduleAt(block: Block, t: nat)
    requires t < 80
    ensures Schedule(block)[t] == W(block, t)
  {
  }

  lemma RecordExpanded(h: Regs, block: Block, t: nat)
    requires 16 <= t < 80
    ensures Expanded(RecordOf(h, block), t)
  {
    ScheduleAt(block, t);
    ScheduleAt(block, t - 3);
    ScheduleAt(block, t - 8);
    ScheduleAt(block, t - 14);
    ScheduleAt(block, t - 16);
  }

  lemma RecordStepped(h: Regs, block: Block, t: nat)
    requires t < 80
    ensures Stepped(RecordOf(h, block), t)
  {
    RoundsStep(h, Schedule(block), t);
  }

  lemma RecordIsTrace(h: Regs, block: Block)
    ensures IsTrace(RecordOf(h, block))
  {
    var g := RecordOf(h, block);
    forall t {:trigger Swapped(g, t)} | 0 <= t < 16 ensures Swapped(g, t) {
      RecordSwapped(h, block, t);
    }
    forall t {:trigger Expanded(g, t)} | 16 <= t < 80 ensures Expanded(g, t) {
      RecordExpanded(h, block, t);
    }
    forall t {:trigger Stepped(g, t)} | 0 <= t < 80 ensures Stepped(g, t) {
      RecordStepped(h, block, t);
    }
  }

  /** Every block and hash value have a trace, and it ends in the compressed value. */
  ghost function TraceOf(h: Regs, block: Block): (g: Record)
    ensures IsTrace(g) && g == RecordOf(h, block)
    ensures g.regs[0] == h && g.regs[80] == Rounds(h, Schedule(block))
  {
    RecordIsTrace(h, block);
    assert Schedule(block)[..80] == Schedule(block);
    RecordOf(h, block)
  }

  /** The last sixteen schedule words before round `t` lie in the circular block; the words that
      are still to be read lie there as they were loaded. */
  ghost predicate Window(block: array<bv32>, g: Trace, t: int)
    reads block
  {
    && block.Length == 16 && t <= 80
    && (forall s {:trigger g.w[s]} :: 0 <= s < t <= s + 16 ==> block[s % 16] == g.w[s])
    && forall s {:trigger g.raw[s]} :: 0 <= s && t <= s < 16 ==> block[s] == g.raw[s]
  }

  /** The state of the computation before round `t`, with the registers named as round `t` sees them. */
  ghost predicate AtRound(block: array<bv32>, g: Trace, t: int, v: bv32, w: bv32, x: bv32, y: bv32, z: bv32)
    reads block
  {
    0 <= t && Window(block, g, t) && g.regs[t] == Regs(v, w, x, y, z)
  }

  // ---------------------------------------------------------------- the bits of a rotation

  function Bit(x: bv32, i: bv32): bool
    requires i < 32
  {
    (x >> i) & 1 == 1
  }

  /** In a rotation by `n`, bit `i` moves to place `i + n`, around the end of the word. */
  lemma RotlFiveMoves(x: bv32, i: bv32)
    requires i < 32
    ensures Bit(Rotl(x, 5), (i + 5) & 31) == Bit(x, i)
  {
  }

  lemma RotlThirtyMoves(x: bv32, i: bv32)
    requires i < 32
    ensures Bit(Rotl(x, 30), (i + 30) & 31) == Bit(x, i)
  {
  }

  /** A new word of the schedule is the exclusive-or of four words, each bit one place further up. */
  lemma MixMoves(p: bv32, q: bv32, r: bv32, s: bv32, i: bv32)
    requires i < 32
    ensures Bit(Mix(p, q, r, s), (i + 1) & 31) == Bit(p ^ q ^ r ^ s, i)
  {
  }

  /** The code's choose and majority, and its order of summation. */
  lemma Choose(x: bv32, y: bv32, z: bv32)
    ensures (x & (y ^ z)) ^ z == Ch(x, y, z)
  {
  }

  lemma Majority(x: bv32, y: bv32, z: bv32)
    ensures ((x | y) & z) | (x & y) == Maj(x, y, z)
  {
  }

  /** Round `t` of a trace, with the function and the constant of its phase. */
  lemma RoundIs(g: Trace, t: nat, v: bv32, w: bv32, x: bv32, y: bv32, z: bv32, word: bv32, f: bv32, k: bv32)
    requires t < 80 && g.regs[t] == Regs(v, w, x, y, z) && g.w[t] == word
    requires F(t, w, x, y) == f && K(t) == k
    ensures g.regs[t + 1] == Regs(Added(z, f, word, k, Rotl(v, 5)), v, Rotl(w, 30), x, y)
  {
    assert Stepped(g, t);
    SumOrder(Rotl(v, 5), f, z, k, word);
  }

  /** The order in which the code adds the terms of a round. */
  function Added(z: bv32, f: bv32, word: bv32, k: bv32, r: bv32): bv32 { z + (f + word + k + r) }

  lemma SumOrder(a: bv32, f: bv32, e: bv32, k: bv32, w: bv32)
    ensures Added(e, f, w, k, a) == Sum5(a, f, e, k, w)
  {
  }
}
