/** `sha256_transform` against section 6.2.2 of FIPS 180-4. */
module Sha256 {
  import opened ShaMessage
  import opened Sha256Spec

  /** `ROTRIGHT` */
  method RotRight(x: bv32, n: bv8) returns (r: bv32)
    requires 0 < n < 32
    ensures r == Rotr(x, n)
  {
    r := (x >> n) | (x << (32 - n));
  }

  /** `EP0`, `EP1`, `SIG0` and `SIG1` */
  method Ep0(x: bv32) returns (r: bv32)
    ensures r == Sigma0(x)
  {
    var p := RotRight(x, 2);
    var q := RotRight(x, 13);
    var s := RotRight(x, 22);
    r := Xor(p, q, s);
  }

  method Ep1(x: bv32) returns (r: bv32)
    ensures r == Sigma1(x)
  {
    var p := RotRight(x, 6);
    var q := RotRight(x, 11);
    var s := RotRight(x, 25);
    r := Xor(p, q, s);
  }

  method Sig0(x: bv32) returns (r: bv32)
    ensures r == Small0(x)
  {
    var p := RotRight(x, 7);
    var q := RotRight(x, 18);
    r := Xor(p, q, x >> 3);
  }

  method Sig1(x: bv32) returns (r: bv32)
    ensures r == Small1(x)
  {
    var p := RotRight(x, 17);
    var q := RotRight(x, 19);
    r := Xor(p, q, x >> 10);
  }

  method NextWord(p: bv32, q: bv32, r: bv32, s: bv32) returns (word: bv32)
    ensures word == Mix(p, q, r, s)
  {
    var x := Sig1(p);
    var y := Sig0(r);
    word := Sum4(x, q, y, s);
  }

  /** The schedule array: sixteen words from the block, forty-eight more from the recurrence. */
  method LoadWords(block: Block) returns (m: array<bv32>)
    ensures fresh(m) && m.Length == 64 && forall s :: 0 <= s < 16 ==> m[s] == Schedule(block)[s]
  {
    m := new bv32[64];
    var i, j := 0, 0;
    while i < 16
      invariant 0 <= i <= 16 && j == 4 * i
      invariant forall s :: 0 <= s < i ==> m[s] == W(block, s)
    {
      m[i] := Word(block[j], block[j + 1], block[j + 2], block[j + 3]);
      i, j := i + 1, j + 4;
    }
  }

  lemma ScheduleRecurs(block: Block, t: nat)
    requires 16 <= t < 64
    ensures var w := Schedule(block); w[t] == Mix(w[t - 2], w[t - 7], w[t - 15], w[t - 16])
  {
    var w := Schedule(block);
    assert w[t] == W(block, t) && w[t - 2] == W(block, t - 2) && w[t - 7] == W(block, t - 7);
    assert w[t - 15] == W(block, t - 15) && w[t - 16] == W(block, t - 16);
  }

  method Extend(m: array<bv32>, ghost block: Block)
    requires m.Length == 64 && forall s :: 0 <= s < 16 ==> m[s] == Schedule(block)[s]
    modifies m
    ensures m[..] == Schedule(block)
  {
    ghost var w := Schedule(block);
    var i := 16;
    while i < 64
      invariant 16 <= i <= 64
      invariant forall s {:trigger w[s]} :: 0 <= s < i ==> m[s] == w[s]
    {
      ScheduleRecurs(block, i);
      m[i] := NextWord(m[i - 2], m[i - 7], m[i - 15], m[i - 16]);
      i := i + 1;
    }
  }

  lemma RoundsStep(h: Regs, k: Table, w: seq<bv32>, t: nat)
    requires t < |w| <= 64
    ensures Rounds(h, k, w[..t + 1]) == Step(Rounds(h, k, w[..t]), k[t / 8][t % 8], w[t])
  {
    assert w[..t + 1][..t] == w[..t];
  }

  /** `CH` and `MAJ` */
  method Choose(x: bv32, y: bv32, z: bv32) returns (r: bv32)
    ensures r == Ch(x, y, z)
  {
    r := (x & y) ^ (!x & z);
  }

  method Majority(x: bv32, y: bv32, z: bv32) returns (r: bv32)
    ensures r == Maj(x, y, z)
  {
    r := (x & y) ^ (x & z) ^ (y & z);
  }

  method First(e: bv32, f: bv32, g: bv32, h: bv32, k: bv32, w: bv32, ghost r: Regs) returns (t1: bv32)
    requires e == r.e && f == r.f && g == r.g && h == r.h
    ensures t1 == T1(r, k, w)
  {
    var x := Ep1(e);
    var y := Choose(e, f, g);
    t1 := Sum5(h, x, y, k, w);
  }

  method Second(a: bv32, b: bv32, c: bv32, ghost r: Regs) returns (t2: bv32)
    requires a == r.a && b == r.b && c == r.c
    ensures t2 == T2(r)
  {
    var x := Ep0(a);
    var y := Majority(a, b, c);
    t2 := Plus(x, y);
  }

  /** One round: the registers move down by one, and two of them are computed. */
  method Round(r: Regs, k: bv32, w: bv32) returns (r': Regs)
    ensures r' == Step(r, k, w)
  {
    var a, b, c, d, e, f, g, h := r.a, r.b, r.c, r.d, r.e, r.f, r.g, r.h;
    var t1 := First(e, f, g, h, k, w, r);
    var t2 := Second(a, b, c, r);
    h := g;
    g := f;
    f := e;
    e := Plus(d, t1);
    d := c;
    c := b;
    b := a;
    a := Plus(t1, t2);
    r' := Regs(a, b, c, d, e, f, g, h);
  }

  function RegsOf(state: array<bv32>): Regs
    requires state.Length == 8
    reads state
  {
    Regs(state[0], state[1], state[2], state[3], state[4], state[5], state[6], state[7])
  }

  method RunRounds(h: Regs, k: Table, m: array<bv32>) returns (r: Regs)
    requires m.Length == 64
    ensures r == Rounds(h, k, m[..])
  {
    r := h;
    var i := 0;
    while i < 64
      invariant 0 <= i <= 64 && r == Rounds(h, k, m[..][..i])
    {
      RoundsStep(h, k, m[..], i);
      r := Round(r, k[i / 8][i % 8], m[i]);
      i := i + 1;
    }
    assert m[..][..64] == m[..];
  }

  method AddTo(state: array<bv32>, r: Regs)
    requires state.Length == 8
    modifies state
    ensures RegsOf(state) == Sum(old(RegsOf(state)), r)
  {
    state[0] := Plus(state[0], r.a);
    state[1] := Plus(state[1], r.b);
    state[2] := Plus(state[2], r.c);
    state[3] := Plus(state[3], r.d);
    state[4] := Plus(state[4], r.e);
    state[5] := Plus(state[5], r.f);
    state[6] := Plus(state[6], r.g);
    state[7] := Plus(state[7], r.h);
  }

  method Transform(state: array<bv32>, k: Table, block: Block)
    requires state.Length == 8
    modifies state
    ensures RegsOf(state) == Compress(k, old(RegsOf(state)), block)
  {
    var m := LoadWords(block);
    Extend(m, block);
    var r := RunRounds(RegsOf(state), k, m);
    AddTo(state, r);
  }
}
