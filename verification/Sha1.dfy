/** `Sha1`: the compression function with its sixteen-word circular schedule and its renamed
    registers. */
module Sha1 {
  import opened ShaMessage
  import opened Sha1Spec

  /** `rol` */
  method Rol(x: bv32, n: bv8) returns (r: bv32)
    requires 0 < n < 32
    ensures r == Rotl(x, n)
  {
    r := (x << n) | (x >> (32 - n));
  }

  method InOrder(x: bv32) returns (word: bv32)
    ensures word == Swap(x)
  {
    word := (((x << 24) | (x >> 8)) & 0xff00ff00) | (((x << 8) | (x >> 24)) & 0x00ff00ff);
  }

  method NextWord(p: bv32, q: bv32, r: bv32, s: bv32) returns (word: bv32)
    ensures word == Mix(p, q, r, s)
  {
    word := Rol(p ^ q ^ r ^ s, 1);
  }

  /** `blk0(i)`: puts the bytes of word `i` in order. */
  method Blk0(block: array<bv32>, i: nat, ghost g: Trace) returns (word: bv32)
    requires i < 16 && Window(block, g, i)
    modifies block
    ensures Window(block, g, i + 1) && word == g.w[i]
  {
    assert Swapped(g, i);
    word := InOrder(block[i]);
    block[i] := word;
  }

  /** `blk(i)`: replaces the oldest word by the next one of the schedule. */
  method Blk(block: array<bv32>, i: nat, ghost g: Trace) returns (word: bv32)
    requires 16 <= i < 80 && Window(block, g, i)
    modifies block
    ensures Window(block, g, i + 1) && word == g.w[i]
  {
    assert Expanded(g, i);
    assert block[(i + 13) % 16] == g.w[i - 3] && block[(i + 8) % 16] == g.w[i - 8];
    assert block[(i + 2) % 16] == g.w[i - 14] && block[i % 16] == g.w[i - 16];
    word := NextWord(block[(i + 13) % 16], block[(i + 8) % 16], block[(i + 2) % 16], block[i % 16]);
    block[i % 16] := word;
  }

  method R0(v: bv32, w: bv32, x: bv32, y: bv32, z: bv32, i: nat, block: array<bv32>, ghost g: Trace)
    returns (z': bv32, w': bv32)
    requires i < 16 && AtRound(block, g, i, v, w, x, y, z)
    modifies block
    ensures AtRound(block, g, i + 1, z', v, w', x, y)
  {
    var word := Blk0(block, i, g);
    Choose(w, x, y);
    RoundIs(g, i, v, w, x, y, z, word, (w & (x ^ y)) ^ y, 0x5A827999);
    var r := Rol(v, 5);
    z' := Added(z, (w & (x ^ y)) ^ y, word, 0x5A827999, r);
    w' := Rol(w, 30);
  }

  method R1(v: bv32, w: bv32, x: bv32, y: bv32, z: bv32, i: nat, block: array<bv32>, ghost g: Trace)
    returns (z': bv32, w': bv32)
    requires 16 <= i < 20 && AtRound(block, g, i, v, w, x, y, z)
    modifies block
    ensures AtRound(block, g, i + 1, z', v, w', x, y)
  {
    var word := Blk(block, i, g);
    Choose(w, x, y);
    RoundIs(g, i, v, w, x, y, z, word, (w & (x ^ y)) ^ y, 0x5A827999);
    var r := Rol(v, 5);
    z' := Added(z, (w & (x ^ y)) ^ y, word, 0x5A827999, r);
    w' := Rol(w, 30);
  }

  method R2(v: bv32, w: bv32, x: bv32, y: bv32, z: bv32, i: nat, block: array<bv32>, ghost g: Trace)
    returns (z': bv32, w': bv32)
    requires 20 <= i < 40 && AtRound(block, g, i, v, w, x, y, z)
    modifies block
    ensures AtRound(block, g, i + 1, z', v, w', x, y)
  {
    var word := Blk(block, i, g);
    RoundIs(g, i, v, w, x, y, z, word, w ^ x ^ y, 0x6ED9EBA1);
    var r := Rol(v, 5);
    z' := Added(z, w ^ x ^ y, word, 0x6ED9EBA1, r);
    w' := Rol(w, 30);
  }

  method R3(v: bv32, w: bv32, x: bv32, y: bv32, z: bv32, i: nat, block: array<bv32>, ghost g: Trace)
    returns (z': bv32, w': bv32)
    requires 40 <= i < 60 && AtRound(block, g, i, v, w, x, y, z)
    modifies block
    ensures AtRound(block, g, i + 1, z', v, w', x, y)
  {
    var word := Blk(block, i, g);
    Majority(w, x, y);
    RoundIs(g, i, v, w, x, y, z, word, ((w | x) & y) | (w & x), 0x8F1BBCDC);
    var r := Rol(v, 5);
    z' := Added(z, ((w | x) & y) | (w & x), word, 0x8F1BBCDC, r);
    w' := Rol(w, 30);
  }

  method R4(v: bv32, w: bv32, x: bv32, y: bv32, z: bv32, i: nat, block: array<bv32>, ghost g: Trace)
    returns (z': bv32, w': bv32)
    requires 60 <= i < 80 && AtRound(block, g, i, v, w, x, y, z)
    modifies block
    ensures AtRound(block, g, i + 1, z', v, w', x, y)
  {
    var word := Blk(block, i, g);
    RoundIs(g, i, v, w, x, y, z, word, w ^ x ^ y, 0xCA62C1D6);
    var r := Rol(v, 5);
    z' := Added(z, w ^ x ^ y, word, 0xCA62C1D6, r);
    w' := Rol(w, 30);
  }

  method FiveR0(a0: bv32, b0: bv32, c0: bv32, d0: bv32, e0: bv32, i: nat, block: array<bv32>, ghost g: Trace)
    returns (a: bv32, b: bv32, c: bv32, d: bv32, e: bv32)
    requires i + 4 < 16 && AtRound(block, g, i, a0, b0, c0, d0, e0)
    modifies block
    ensures AtRound(block, g, i + 5, a, b, c, d, e)
  {
    a, b, c, d, e := a0, b0, c0, d0, e0;
    e, b := R0(a, b, c, d, e, i, block, g);
    d, a := R0(e, a, b, c, d, i + 1, block, g);
    c, e := R0(d, e, a, b, c, i + 2, block, g);
    b, d := R0(c, d, e, a, b, i + 3, block, g);
    a, c := R0(b, c, d, e, a, i + 4, block, g);
  }

  method Mixed(a0: bv32, b0: bv32, c0: bv32, d0: bv32, e0: bv32, block: array<bv32>, ghost g: Trace)
    returns (a: bv32, b: bv32, c: bv32, d: bv32, e: bv32)
    requires AtRound(block, g, 15, a0, b0, c0, d0, e0)
    modifies block
    ensures AtRound(block, g, 20, a, b, c, d, e)
  {
    a, b, c, d, e := a0, b0, c0, d0, e0;
    e, b := R0(a, b, c, d, e, 15, block, g);
    d, a := R1(e, a, b, c, d, 16, block, g);
    c, e := R1(d, e, a, b, c, 17, block, g);
    b, d := R1(c, d, e, a, b, 18, block, g);
    a, c := R1(b, c, d, e, a, 19, block, g);
  }

  method FiveR2(a0: bv32, b0: bv32, c0: bv32, d0: bv32, e0: bv32, i: nat, block: array<bv32>, ghost g: Trace)
    returns (a: bv32, b: bv32, c: bv32, d: bv32, e: bv32)
    requires 20 <= i && i + 4 < 40 && AtRound(block, g, i, a0, b0, c0, d0, e0)
    modifies block
    ensures AtRound(block, g, i + 5, a, b, c, d, e)
  {
    a, b, c, d, e := a0, b0, c0, d0, e0;
    e, b := R2(a, b, c, d, e, i, block, g);
    d, a := R2(e, a, b, c, d, i + 1, block, g);
    c, e := R2(d, e, a, b, c, i + 2, block, g);
    b, d := R2(c, d, e, a, b, i + 3, block, g);
    a, c := R2(b, c, d, e, a, i + 4, block, g);
  }

  method FiveR3(a0: bv32, b0: bv32, c0: bv32, d0: bv32, e0: bv32, i: nat, block: array<bv32>, ghost g: Trace)
    returns (a: bv32, b: bv32, c: bv32, d: bv32, e: bv32)
    requires 40 <= i && i + 4 < 60 && AtRound(block, g, i, a0, b0, c0, d0, e0)
    modifies block
    ensures AtRound(block, g, i + 5, a, b, c, d, e)
  {
    a, b, c, d, e := a0, b0, c0, d0, e0;
    e, b := R3(a, b, c, d, e, i, block, g);
    d, a := R3(e, a, b, c, d, i + 1, block, g);
    c, e := R3(d, e, a, b, c, i + 2, block, g);
    b, d := R3(c, d, e, a, b, i + 3, block, g);
    a, c := R3(b, c, d, e, a, i + 4, block, g);
  }

  method FiveR4(a0: bv32, b0: bv32, c0: bv32, d0: bv32, e0: bv32, i: nat, block: array<bv32>, ghost g: Trace)
    returns (a: bv32, b: bv32, c: bv32, d: bv32, e: bv32)
    requires 60 <= i && i + 4 < 80 && AtRound(block, g, i, a0, b0, c0, d0, e0)
    modifies block
    ensures AtRound(block, g, i + 5, a, b, c, d, e)
  {
    a, b, c, d, e := a0, b0, c0, d0, e0;
    e, b := R4(a, b, c, d, e, i, block, g);
    d, a := R4(e, a, b, c, d, i + 1, block, g);
    c, e := R4(d, e, a, b, c, i + 2, block, g);
    b, d := R4(c, d, e, a, b, i + 3, block, g);
    a, c := R4(b, c, d, e, a, i + 4, block, g);
  }

  method FirstTwenty(a0: bv32, b0: bv32, c0: bv32, d0: bv32, e0: bv32, block: array<bv32>, ghost g: Trace)
    returns (a: bv32, b: bv32, c: bv32, d: bv32, e: bv32)
    requires AtRound(block, g, 0, a0, b0, c0, d0, e0)
    modifies block
    ensures AtRound(block, g, 20, a, b, c, d, e)
  {
    a, b, c, d, e := a0, b0, c0, d0, e0;
    a, b, c, d, e := FiveR0(a, b, c, d, e, 0, block, g);
    a, b, c, d, e := FiveR0(a, b, c, d, e, 5, block, g);
    a, b, c, d, e := FiveR0(a, b, c, d, e, 10, block, g);
    a, b, c, d, e := Mixed(a, b, c, d, e, block, g);
  }

  method SecondTwenty(a0: bv32, b0: bv32, c0: bv32, d0: bv32, e0: bv32, block: array<bv32>, ghost g: Trace)
    returns (a: bv32, b: bv32, c: bv32, d: bv32, e: bv32)
    requires AtRound(block, g, 20, a0, b0, c0, d0, e0)
    modifies block
    ensures AtRound(block, g, 40, a, b, c, d, e)
  {
    a, b, c, d, e := a0, b0, c0, d0, e0;
    a, b, c, d, e := FiveR2(a, b, c, d, e, 20, block, g);
    a, b, c, d, e := FiveR2(a, b, c, d, e, 25, block, g);
    a, b, c, d, e := FiveR2(a, b, c, d, e, 30, block, g);
    a, b, c, d, e := FiveR2(a, b, c, d, e, 35, block, g);
  }

  method ThirdTwenty(a0: bv32, b0: bv32, c0: bv32, d0: bv32, e0: bv32, block: array<bv32>, ghost g: Trace)
    returns (a: bv32, b: bv32, c: bv32, d: bv32, e: bv32)
    requires AtRound(block, g, 40, a0, b0, c0, d0, e0)
    modifies block
    ensures AtRound(block, g, 60, a, b, c, d, e)
  {
    a, b, c, d, e := a0, b0, c0, d0, e0;
    a, b, c, d, e := FiveR3(a, b, c, d, e, 40, block, g);
    a, b, c, d, e := FiveR3(a, b, c, d, e, 45, block, g);
    a, b, c, d, e := FiveR3(a, b, c, d, e, 50, block, g);
    a, b, c, d, e := FiveR3(a, b, c, d, e, 55, block, g);
  }

  method LastTwenty(a0: bv32, b0: bv32, c0: bv32, d0: bv32, e0: bv32, block: array<bv32>, ghost g: Trace)
    returns (a: bv32, b: bv32, c: bv32, d: bv32, e: bv32)
    requires AtRound(block, g, 60, a0, b0, c0, d0, e0)
    modifies block
    ensures AtRound(block, g, 80, a, b, c, d, e)
  {
    a, b, c, d, e := a0, b0, c0, d0, e0;
    a, b, c, d, e := FiveR4(a, b, c, d, e, 60, block, g);
    a, b, c, d, e := FiveR4(a, b, c, d, e, 65, block, g);
    a, b, c, d, e := FiveR4(a, b, c, d, e, 70, block, g);
    a, b, c, d, e := FiveR4(a, b, c, d, e, 75, block, g);
  }

  /** The host's view of the bytes of a block as sixteen words. */
  method LoadBlock(buffer: Block) returns (block: array<bv32>)
    ensures fresh(block) && block[..] == seq(16, t requires 0 <= t < 16 => RawWord(buffer, t))
  {
    block := new bv32[16](t requires 0 <= t < 16 => RawWord(buffer, t));
  }

  ghost function RegsOf(state: array<bv32>): Regs
    requires state.Length == 5
    reads state
  {
    Regs(state[0], state[1], state[2], state[3], state[4])
  }

  /** All eighty rounds. */
  method Eighty(h: Regs, buffer: Block) returns (a: bv32, b: bv32, c: bv32, d: bv32, e: bv32)
    ensures Regs(a, b, c, d, e) == Rounds(h, Schedule(buffer))
  {
    ghost var g: Trace := TraceOf(h, buffer);
    var block := LoadBlock(buffer);
    Loaded(block, g);
    a, b, c, d, e := FirstTwenty(h.a, h.b, h.c, h.d, h.e, block, g);
    a, b, c, d, e := SecondTwenty(a, b, c, d, e, block, g);
    a, b, c, d, e := ThirdTwenty(a, b, c, d, e, block, g);
    a, b, c, d, e := LastTwenty(a, b, c, d, e, block, g);
  }

  lemma Loaded(block: array<bv32>, g: Trace)
    requires block[..] == g.raw
    ensures Window(block, g, 0)
  {
    assert forall s {:trigger g.raw[s]} :: 0 <= s < 16 ==> block[s] == block[..][s];
  }

  /** `transform`: eighty unrolled rounds compute section 6.1.2. */
  method Transform(state: array<bv32>, buffer: Block)
    requires state.Length == 5
    modifies state
    ensures RegsOf(state) == Compress(old(RegsOf(state)), buffer)
  {
    var a, b, c, d, e := Eighty(Regs(state[0], state[1], state[2], state[3], state[4]), buffer);
    AddTo(state, a, b, c, d, e);
  }

  method AddTo(state: array<bv32>, a: bv32, b: bv32, c: bv32, d: bv32, e: bv32)
    requires state.Length == 5
    modifies state
    ensures RegsOf(state) == Sum(old(RegsOf(state)), Regs(a, b, c, d, e))
  {
    state[0] := Plus(state[0], a);
    state[1] := Plus(state[1], b);
    state[2] := Plus(state[2], c);
    state[3] := Plus(state[3], d);
    state[4] := Plus(state[4], e);
  }
}
