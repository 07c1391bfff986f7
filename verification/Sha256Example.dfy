/** The digest of the message "abc" is the one that the examples of FIPS 180 give for it. */
module Sha256Example {
  import opened Basics
  import opened ShaMessage
  import opened ShaExample
  import opened Sha256Constants
  import opened Sha256Spec
  import opened Sha256
  import opened Sha256Stream

  /** The next four words of the schedule from the sixteen before them. */
  function NextQuad(p: Quad, q: Quad, r: Quad, s: Quad): Quad {
    var w0 := Mix(s.w2, r.w1, p.w1, p.w0);
    var w1 := Mix(s.w3, r.w2, p.w2, p.w1);
    Quad(w0, w1, Mix(w0, r.w3, p.w3, p.w2), Mix(w1, s.w0, q.w0, p.w3))
  }

  lemma QuadNext(block: Block, i: nat)
    requires i + 20 <= 64
    ensures var w := Schedule(block);
      QuadAt(w, i + 16) == NextQuad(QuadAt(w, i), QuadAt(w, i + 4), QuadAt(w, i + 8), QuadAt(w, i + 12))
  {
    ScheduleRecurs(block, i + 16);
    ScheduleRecurs(block, i + 17);
    ScheduleRecurs(block, i + 18);
    ScheduleRecurs(block, i + 19);
  }

  lemma RowAndColumn(i: nat, j: nat, t: nat)
    requires j < 8 && t == 8 * i + j
    ensures t / 8 == i && t % 8 == j
  {
  }

  lemma OneRound(h: Regs, k: Table, w: seq<bv32>, i: nat, j: nat, t: nat)
    requires j < 8 && t == 8 * i + j && t < |w| <= 64
    ensures Rounds(h, k, w[..t + 1]) == Step(Rounds(h, k, w[..t]), k[i][j], w[t])
  {
    RowAndColumn(i, j, t);
    RoundsStep(h, k, w, t);
  }

  /** The constants, four to a row. */
  function Constants(j: nat): Quad {
    match j
    case 0 => Quad(0x428a2f98, 0x71374491, 0xb5c0fbcf, 0xe9b5dba5)
    case 1 => Quad(0x3956c25b, 0x59f111f1, 0x923f82a4, 0xab1c5ed5)
    case 2 => Quad(0xd807aa98, 0x12835b01, 0x243185be, 0x550c7dc3)
    case 3 => Quad(0x72be5d74, 0x80deb1fe, 0x9bdc06a7, 0xc19bf174)
    case 4 => Quad(0xe49b69c1, 0xefbe4786, 0x0fc19dc6, 0x240ca1cc)
    case 5 => Quad(0x2de92c6f, 0x4a7484aa, 0x5cb0a9dc, 0x76f988da)
    case 6 => Quad(0x983e5152, 0xa831c66d, 0xb00327c8, 0xbf597fc7)
    case 7 => Quad(0xc6e00bf3, 0xd5a79147, 0x06ca6351, 0x14292967)
    case 8 => Quad(0x27b70a85, 0x2e1b2138, 0x4d2c6dfc, 0x53380d13)
    case 9 => Quad(0x650a7354, 0x766a0abb, 0x81c2c92e, 0x92722c85)
    case 10 => Quad(0xa2bfe8a1, 0xa81a664b, 0xc24b8b70, 0xc76c51a3)
    case 11 => Quad(0xd192e819, 0xd6990624, 0xf40e3585, 0x106aa070)
    case 12 => Quad(0x19a4c116, 0x1e376c08, 0x2748774c, 0x34b0bcb5)
    case 13 => Quad(0x391c0cb3, 0x4ed8aa4a, 0x5b9cca4f, 0x682e6ff3)
    case 14 => Quad(0x748f82ee, 0x78a5636f, 0x84c87814, 0x8cc70208)
    case _ => Quad(0x90befffa, 0xa4506ceb, 0xbef9a3f7, 0xc67178f2)
  }

  lemma ConstantsAre(j: nat)
    requires j < 16
    ensures QuadAt(K[j / 2], j % 2 * 4) == Constants(j)
  {
    if j == 0 {
    } else if j == 1 {
    } else if j == 2 {
    } else if j == 3 {
    } else if j == 4 {
    } else if j == 5 {
    } else if j == 6 {
    } else if j == 7 {
    } else if j == 8 {
    } else if j == 9 {
    } else if j == 10 {
    } else if j == 11 {
    } else if j == 12 {
    } else if j == 13 {
    } else if j == 14 {
    } else {
    }
  }

  ghost predicate FirstAt(w: seq<bv32>, t: nat)
    requires t < 16 <= |w|
  {
    w[t] == if t == 0 then 0x61626380 else if t == 15 then 24 else 0
  }

  /** The schedule starts with the words of the message, and four words follow from the sixteen before them. */
  ghost predicate Scheduled(w: seq<bv32>) {
    && |w| == 64 && (forall t {:trigger FirstAt(w, t)} :: 0 <= t < 16 ==> FirstAt(w, t))
    && forall i {:trigger Recurs(w, i)} :: 0 <= i <= 44 ==> Recurs(w, i)
  }

  ghost predicate Recurs(w: seq<bv32>, i: nat)
    requires i + 20 <= |w|
  {
    QuadAt(w, i + 16) == NextQuad(QuadAt(w, i), QuadAt(w, i + 4), QuadAt(w, i + 8), QuadAt(w, i + 12))
  }

  lemma ScheduleIs(block: Block)
    requires block == Padded(ABC)
    ensures Scheduled(Schedule(block))
  {
    var w := Schedule(block);
    forall t {:trigger FirstAt(w, t)} | 0 <= t < 16 ensures FirstAt(w, t) {
      assert w[t] == W(block, t);
      AbcWords(t);
    }
    forall i {:trigger Recurs(w, i)} | 0 <= i <= 44 ensures Recurs(w, i) {
      QuadNext(block, i);
    }
  }

  /** Sixteen words of the schedule, from number `i` on. */
  ghost predicate Window(w: seq<bv32>, i: nat, p: Quad, q: Quad, r: Quad, s: Quad) {
    i + 16 <= |w| && QuadAt(w, i) == p && QuadAt(w, i + 4) == q && QuadAt(w, i + 8) == r && QuadAt(w, i + 12) == s
  }

  lemma WindowMoves(w: seq<bv32>, i: nat, p: Quad, q: Quad, r: Quad, s: Quad, next: Quad)
    requires Scheduled(w) && i + 20 <= 64 && Window(w, i, p, q, r, s) && NextQuad(p, q, r, s) == next
    ensures Window(w, i + 4, q, r, s, next)
  {
    assert Recurs(w, i);
  }

  ghost predicate IsRounds(h: Regs, k: Table, w: seq<bv32>, t: nat, r: Regs) {
    t <= |w| <= 64 && r == Rounds(h, k, w[..t])
  }

  /** After `t` rounds the working variables are `r`. */
  ghost predicate Reaches(h: Regs, k: Table, w: seq<bv32>, t: nat, r: Regs) {
    forall s {:trigger IsRounds(h, k, w, t, s)} :: IsRounds(h, k, w, t, s) ==> s == r
  }

  lemma OneReach(h: Regs, k: Table, w: seq<bv32>, i: nat, j: nat, t: nat, c: bv32, x: bv32, r: Regs, s: Regs)
    requires j < 8 && t == 8 * i + j && t < |w| <= 64 && Reaches(h, k, w, t, r)
    requires k[i][j] == c && w[t] == x && Step(r, c, x) == s
    ensures Reaches(h, k, w, t + 1, s)
  {
    OneRound(h, k, w, i, j, t);
    assert IsRounds(h, k, w, t, Rounds(h, k, w[..t]));
  }

  /** The initial value and the constants. */
  ghost predicate Published(h: Regs, k: Table) {
    && (forall j {:trigger Holds(k, j)} :: 0 <= j < 16 ==> Holds(k, j))
    && h == Regs(0x6a09e667, 0xbb67ae85, 0x3c6ef372, 0xa54ff53a, 0x510e527f, 0x9b05688c, 0x1f83d9ab, 0x5be0cd19)
  }

  ghost predicate Holds(k: Table, j: nat)
    requires j < 16
  {
    QuadAt(k[j / 2], j % 2 * 4) == Constants(j)
  }

  lemma Words0To15(w: seq<bv32>)
    requires Scheduled(w)
    ensures Window(w, 0, Quad(0x61626380, 0, 0, 0), Quad(0, 0, 0, 0), Quad(0, 0, 0, 0), Quad(0, 0, 0, 24))
  {
    assert FirstAt(w, 0) && FirstAt(w, 1) && FirstAt(w, 2) && FirstAt(w, 3);
    assert FirstAt(w, 4) && FirstAt(w, 5) && FirstAt(w, 6) && FirstAt(w, 7);
    assert FirstAt(w, 8) && FirstAt(w, 9) && FirstAt(w, 10) && FirstAt(w, 11);
    assert FirstAt(w, 12) && FirstAt(w, 13) && FirstAt(w, 14) && FirstAt(w, 15);
  }

  lemma Words8To23(w: seq<bv32>)
    requires Scheduled(w)
    ensures Window(w, 8,
      Quad(0x00000000, 0x00000000, 0x00000000, 0x00000000), Quad(0x00000000, 0x00000000, 0x00000000, 0x00000018),
      Quad(0x61626380, 0x000f0000, 0x7da86405, 0x600003c6), Quad(0x3e9d7b78, 0x0183fc00, 0x12dcbfdb, 0xe2e2c38e))
  {
    Words0To15(w);
    var p := Quad(0x61626380, 0x00000000, 0x00000000, 0x00000000);
    var q := Quad(0x00000000, 0x00000000, 0x00000000, 0x00000000);
    var r := Quad(0x00000000, 0x00000000, 0x00000000, 0x00000000);
    var s := Quad(0x00000000, 0x00000000, 0x00000000, 0x00000018);
    var t := Quad(0x61626380, 0x000f0000, 0x7da86405, 0x600003c6);
    var u := Quad(0x3e9d7b78, 0x0183fc00, 0x12dcbfdb, 0xe2e2c38e);
    WindowMoves(w, 0, p, q, r, s, t);
    WindowMoves(w, 4, q, r, s, t, u);
  }

  lemma Words16To31(w: seq<bv32>)
    requires Scheduled(w)
    ensures Window(w, 16,
      Quad(0x61626380, 0x000f0000, 0x7da86405, 0x600003c6), Quad(0x3e9d7b78, 0x0183fc00, 0x12dcbfdb, 0xe2e2c38e),
      Quad(0xc8215c1a, 0xb73679a2, 0xe5bc3909, 0x32663c5b), Quad(0x9d209d67, 0xec8726cb, 0x702138a4, 0xd3b7973b))
  {
    Words8To23(w);
    var p := Quad(0x00000000, 0x00000000, 0x00000000, 0x00000000);
    var q := Quad(0x00000000, 0x00000000, 0x00000000, 0x00000018);
    var r := Quad(0x61626380, 0x000f0000, 0x7da86405, 0x600003c6);
    var s := Quad(0x3e9d7b78, 0x0183fc00, 0x12dcbfdb, 0xe2e2c38e);
    var t := Quad(0xc8215c1a, 0xb73679a2, 0xe5bc3909, 0x32663c5b);
    var u := Quad(0x9d209d67, 0xec8726cb, 0x702138a4, 0xd3b7973b);
    WindowMoves(w, 8, p, q, r, s, t);
    WindowMoves(w, 12, q, r, s, t, u);
  }

  lemma Words24To39(w: seq<bv32>)
    requires Scheduled(w)
    ensures Window(w, 24,
      Quad(0xc8215c1a, 0xb73679a2, 0xe5bc3909, 0x32663c5b), Quad(0x9d209d67, 0xec8726cb, 0x702138a4, 0xd3b7973b),
      Quad(0x93f5997f, 0x3b68ba73, 0xaff4ffc1, 0xf10a5c62), Quad(0x0a8b3996, 0x72af830a, 0x9409e33e, 0x24641522))
  {
    Words16To31(w);
    var p := Quad(0x61626380, 0x000f0000, 0x7da86405, 0x600003c6);
    var q := Quad(0x3e9d7b78, 0x0183fc00, 0x12dcbfdb, 0xe2e2c38e);
    var r := Quad(0xc8215c1a, 0xb73679a2, 0xe5bc3909, 0x32663c5b);
    var s := Quad(0x9d209d67, 0xec8726cb, 0x702138a4, 0xd3b7973b);
    var t := Quad(0x93f5997f, 0x3b68ba73, 0xaff4ffc1, 0xf10a5c62);
    var u := Quad(0x0a8b3996, 0x72af830a, 0x9409e33e, 0x24641522);
    WindowMoves(w, 16, p, q, r, s, t);
    WindowMoves(w, 20, q, r, s, t, u);
  }

  lemma Words32To47(w: seq<bv32>)
    requires Scheduled(w)
    ensures Window(w, 32,
      Quad(0x93f5997f, 0x3b68ba73, 0xaff4ffc1, 0xf10a5c62), Quad(0x0a8b3996, 0x72af830a, 0x9409e33e, 0x24641522),
      Quad(0x9f47bf94, 0xf0a64f5a, 0x3e246a79, 0x27333ba3), Quad(0x0c4763f2, 0x840abf27, 0x7a290d5d, 0x065c43da))
  {
    Words24To39(w);
    var p := Quad(0xc8215c1a, 0xb73679a2, 0xe5bc3909, 0x32663c5b);
    var q := Quad(0x9d209d67, 0xec8726cb, 0x702138a4, 0xd3b7973b);
    var r := Quad(0x93f5997f, 0x3b68ba73, 0xaff4ffc1, 0xf10a5c62);
    var s := Quad(0x0a8b3996, 0x72af830a, 0x9409e33e, 0x24641522);
    var t := Quad(0x9f47bf94, 0xf0a64f5a, 0x3e246a79, 0x27333ba3);
    var u := Quad(0x0c4763f2, 0x840abf27, 0x7a290d5d, 0x065c43da);
    WindowMoves(w, 24, p, q, r, s, t);
    WindowMoves(w, 28, q, r, s, t, u);
  }

  lemma Words40To55(w: seq<bv32>)
    requires Scheduled(w)
    ensures Window(w, 40,
      Quad(0x9f47bf94, 0xf0a64f5a, 0x3e246a79, 0x27333ba3), Quad(0x0c4763f2, 0x840abf27, 0x7a290d5d, 0x065c43da),
      Quad(0xfb3e89cb, 0xcc7617db, 0xb9e66c34, 0xa9993667), Quad(0x84badedd, 0xc21462bc, 0x1487472c, 0xb20f7a99))
  {
    Words32To47(w);
    var p := Quad(0x93f5997f, 0x3b68ba73, 0xaff4ffc1, 0xf10a5c62);
    var q := Quad(0x0a8b3996, 0x72af830a, 0x9409e33e, 0x24641522);
    var r := Quad(0x9f47bf94, 0xf0a64f5a, 0x3e246a79, 0x27333ba3);
    var s := Quad(0x0c4763f2, 0x840abf27, 0x7a290d5d, 0x065c43da);
    var t := Quad(0xfb3e89cb, 0xcc7617db, 0xb9e66c34, 0xa9993667);
    var u := Quad(0x84badedd, 0xc21462bc, 0x1487472c, 0xb20f7a99);
    WindowMoves(w, 32, p, q, r, s, t);
    WindowMoves(w, 36, q, r, s, t, u);
  }

  lemma Words48To63(w: seq<bv32>)
    requires Scheduled(w)
    ensures Window(w, 48,
      Quad(0xfb3e89cb, 0xcc7617db, 0xb9e66c34, 0xa9993667), Quad(0x84badedd, 0xc21462bc, 0x1487472c, 0xb20f7a99),
      Quad(0xef57b9cd, 0xebe6b238, 0x9fe3095e, 0x78bc8d4b), Quad(0xa43fcf15, 0x668b2ff8, 0xeeaba2cc, 0x12b1edeb))
  {
    Words40To55(w);
    var p := Quad(0x9f47bf94, 0xf0a64f5a, 0x3e246a79, 0x27333ba3);
    var q := Quad(0x0c4763f2, 0x840abf27, 0x7a290d5d, 0x065c43da);
    var r := Quad(0xfb3e89cb, 0xcc7617db, 0xb9e66c34, 0xa9993667);
    var s := Quad(0x84badedd, 0xc21462bc, 0x1487472c, 0xb20f7a99);
    var t := Quad(0xef57b9cd, 0xebe6b238, 0x9fe3095e, 0x78bc8d4b);
    var u := Quad(0xa43fcf15, 0x668b2ff8, 0xeeaba2cc, 0x12b1edeb);
    WindowMoves(w, 40, p, q, r, s, t);
    WindowMoves(w, 44, q, r, s, t, u);
  }

  lemma Rounds0To7(h: Regs, k: Table, w: seq<bv32>)
    requires |w| == 64 && QuadAt(w, 0) == Quad(0x61626380, 0x00000000, 0x00000000, 0x00000000)
    requires QuadAt(w, 4) == Quad(0x00000000, 0x00000000, 0x00000000, 0x00000000)
    requires QuadAt(k[0], 0) == Quad(0x428a2f98, 0x71374491, 0xb5c0fbcf, 0xe9b5dba5)
    requires QuadAt(k[0], 4) == Quad(0x3956c25b, 0x59f111f1, 0x923f82a4, 0xab1c5ed5)
    requires Reaches(h, k, w, 0,
      Regs(0x6a09e667, 0xbb67ae85, 0x3c6ef372, 0xa54ff53a, 0x510e527f, 0x9b05688c, 0x1f83d9ab, 0x5be0cd19))
    ensures Reaches(h, k, w, 8,
      Regs(0x85a07b5f, 0xe5030380, 0x2b4209f5, 0x04409a6a, 0x0c657a79, 0x9b27a401, 0x714260ad, 0x43ada245))
  {
    var r0 := Regs(0x6a09e667, 0xbb67ae85, 0x3c6ef372, 0xa54ff53a, 0x510e527f, 0x9b05688c, 0x1f83d9ab, 0x5be0cd19);
    var r1 := Regs(0x5d6aebcd, 0x6a09e667, 0xbb67ae85, 0x3c6ef372, 0xfa2a4622, 0x510e527f, 0x9b05688c, 0x1f83d9ab);
    var r2 := Regs(0x5a6ad9ad, 0x5d6aebcd, 0x6a09e667, 0xbb67ae85, 0x78ce7989, 0xfa2a4622, 0x510e527f, 0x9b05688c);
    var r3 := Regs(0xc8c347a7, 0x5a6ad9ad, 0x5d6aebcd, 0x6a09e667, 0xf92939eb, 0x78ce7989, 0xfa2a4622, 0x510e527f);
    var r4 := Regs(0xd550f666, 0xc8c347a7, 0x5a6ad9ad, 0x5d6aebcd, 0x24e00850, 0xf92939eb, 0x78ce7989, 0xfa2a4622);
    var r5 := Regs(0x04409a6a, 0xd550f666, 0xc8c347a7, 0x5a6ad9ad, 0x43ada245, 0x24e00850, 0xf92939eb, 0x78ce7989);
    var r6 := Regs(0x2b4209f5, 0x04409a6a, 0xd550f666, 0xc8c347a7, 0x714260ad, 0x43ada245, 0x24e00850, 0xf92939eb);
    var r7 := Regs(0xe5030380, 0x2b4209f5, 0x04409a6a, 0xd550f666, 0x9b27a401, 0x714260ad, 0x43ada245, 0x24e00850);
    var r8 := Regs(0x85a07b5f, 0xe5030380, 0x2b4209f5, 0x04409a6a, 0x0c657a79, 0x9b27a401, 0x714260ad, 0x43ada245);
    OneReach(h, k, w, 0, 0, 0, 0x428a2f98, 0x61626380, r0, r1);
    OneReach(h, k, w, 0, 1, 1, 0x71374491, 0x00000000, r1, r2);
    OneReach(h, k, w, 0, 2, 2, 0xb5c0fbcf, 0x00000000, r2, r3);
    OneReach(h, k, w, 0, 3, 3, 0xe9b5dba5, 0x00000000, r3, r4);
    OneReach(h, k, w, 0, 4, 4, 0x3956c25b, 0x00000000, r4, r5);
    OneReach(h, k, w, 0, 5, 5, 0x59f111f1, 0x00000000, r5, r6);
    OneReach(h, k, w, 0, 6, 6, 0x923f82a4, 0x00000000, r6, r7);
    OneReach(h, k, w, 0, 7, 7, 0xab1c5ed5, 0x00000000, r7, r8);
  }

  lemma After8(h: Regs, k: Table, w: seq<bv32>)
    requires Published(h, k) && Scheduled(w)
    ensures Reaches(h, k, w, 8,
      Regs(0x85a07b5f, 0xe5030380, 0x2b4209f5, 0x04409a6a, 0x0c657a79, 0x9b27a401, 0x714260ad, 0x43ada245))
  {
    assert w[..0] == [];
    Words0To15(w);
    assert Holds(k, 0) && Holds(k, 1);
    Rounds0To7(h, k, w);
  }

  lemma Rounds8To15(h: Regs, k: Table, w: seq<bv32>)
    requires |w| == 64 && QuadAt(w, 8) == Quad(0x00000000, 0x00000000, 0x00000000, 0x00000000)
    requires QuadAt(w, 12) == Quad(0x00000000, 0x00000000, 0x00000000, 0x00000018)
    requires QuadAt(k[1], 0) == Quad(0xd807aa98, 0x12835b01, 0x243185be, 0x550c7dc3)
    requires QuadAt(k[1], 4) == Quad(0x72be5d74, 0x80deb1fe, 0x9bdc06a7, 0xc19bf174)
    requires Reaches(h, k, w, 8,
      Regs(0x85a07b5f, 0xe5030380, 0x2b4209f5, 0x04409a6a, 0x0c657a79, 0x9b27a401, 0x714260ad, 0x43ada245))
    ensures Reaches(h, k, w, 16,
      Regs(0xb0fa238e, 0xc0645fde, 0xd932eb16, 0x87912990, 0x07590dcd, 0x0b92f20c, 0x745a48de, 0x1e578218))
  {
    var r0 := Regs(0x85a07b5f, 0xe5030380, 0x2b4209f5, 0x04409a6a, 0x0c657a79, 0x9b27a401, 0x714260ad, 0x43ada245);
    var r1 := Regs(0x8e04ecb9, 0x85a07b5f, 0xe5030380, 0x2b4209f5, 0x32ca2d8c, 0x0c657a79, 0x9b27a401, 0x714260ad);
    var r2 := Regs(0x8c87346b, 0x8e04ecb9, 0x85a07b5f, 0xe5030380, 0x1cc92596, 0x32ca2d8c, 0x0c657a79, 0x9b27a401);
    var r3 := Regs(0x4798a3f4, 0x8c87346b, 0x8e04ecb9, 0x85a07b5f, 0x436b23e8, 0x1cc92596, 0x32ca2d8c, 0x0c657a79);
    var r4 := Regs(0xf71fc5a9, 0x4798a3f4, 0x8c87346b, 0x8e04ecb9, 0x816fd6e9, 0x436b23e8, 0x1cc92596, 0x32ca2d8c);
    var r5 := Regs(0x87912990, 0xf71fc5a9, 0x4798a3f4, 0x8c87346b, 0x1e578218, 0x816fd6e9, 0x436b23e8, 0x1cc92596);
    var r6 := Regs(0xd932eb16, 0x87912990, 0xf71fc5a9, 0x4798a3f4, 0x745a48de, 0x1e578218, 0x816fd6e9, 0x436b23e8);
    var r7 := Regs(0xc0645fde, 0xd932eb16, 0x87912990, 0xf71fc5a9, 0x0b92f20c, 0x745a48de, 0x1e578218, 0x816fd6e9);
    var r8 := Regs(0xb0fa238e, 0xc0645fde, 0xd932eb16, 0x87912990, 0x07590dcd, 0x0b92f20c, 0x745a48de, 0x1e578218);
    OneReach(h, k, w, 1, 0, 8, 0xd807aa98, 0x00000000, r0, r1);
    OneReach(h, k, w, 1, 1, 9, 0x12835b01, 0x00000000, r1, r2);
    OneReach(h, k, w, 1, 2, 10, 0x243185be, 0x00000000, r2, r3);
    OneReach(h, k, w, 1, 3, 11, 0x550c7dc3, 0x00000000, r3, r4);
    OneReach(h, k, w, 1, 4, 12, 0x72be5d74, 0x00000000, r4, r5);
    OneReach(h, k, w, 1, 5, 13, 0x80deb1fe, 0x00000000, r5, r6);
    OneReach(h, k, w, 1, 6, 14, 0x9bdc06a7, 0x00000000, r6, r7);
    OneReach(h, k, w, 1, 7, 15, 0xc19bf174, 0x00000018, r7, r8);
  }

  lemma After16(h: Regs, k: Table, w: seq<bv32>)
    requires Published(h, k) && Scheduled(w)
    ensures Reaches(h, k, w, 16,
      Regs(0xb0fa238e, 0xc0645fde, 0xd932eb16, 0x87912990, 0x07590dcd, 0x0b92f20c, 0x745a48de, 0x1e578218))
  {
    After8(h, k, w);
    Words8To23(w);
    assert Holds(k, 2) && Holds(k, 3);
    Rounds8To15(h, k, w);
  }

  lemma Rounds16To23(h: Regs, k: Table, w: seq<bv32>)
    requires |w| == 64 && QuadAt(w, 16) == Quad(0x61626380, 0x000f0000, 0x7da86405, 0x600003c6)
    requires QuadAt(w, 20) == Quad(0x3e9d7b78, 0x0183fc00, 0x12dcbfdb, 0xe2e2c38e)
    requires QuadAt(k[2], 0) == Quad(0xe49b69c1, 0xefbe4786, 0x0fc19dc6, 0x240ca1cc)
    requires QuadAt(k[2], 4) == Quad(0x2de92c6f, 0x4a7484aa, 0x5cb0a9dc, 0x76f988da)
    requires Reaches(h, k, w, 16,
      Regs(0xb0fa238e, 0xc0645fde, 0xd932eb16, 0x87912990, 0x07590dcd, 0x0b92f20c, 0x745a48de, 0x1e578218))
    ensures Reaches(h, k, w, 24,
      Regs(0xc5d53d8d, 0xa7a3623f, 0xc2606d6d, 0x9dc68b63, 0xaa47c347, 0x49f5114a, 0xe1257970, 0x8ada8930))
  {
    var r0 := Regs(0xb0fa238e, 0xc0645fde, 0xd932eb16, 0x87912990, 0x07590dcd, 0x0b92f20c, 0x745a48de, 0x1e578218);
    var r1 := Regs(0x21da9a9b, 0xb0fa238e, 0xc0645fde, 0xd932eb16, 0x8034229c, 0x07590dcd, 0x0b92f20c, 0x745a48de);
    var r2 := Regs(0xc2fbd9d1, 0x21da9a9b, 0xb0fa238e, 0xc0645fde, 0x846ee454, 0x8034229c, 0x07590dcd, 0x0b92f20c);
    var r3 := Regs(0xfe777bbf, 0xc2fbd9d1, 0x21da9a9b, 0xb0fa238e, 0xcc899961, 0x846ee454, 0x8034229c, 0x07590dcd);
    var r4 := Regs(0xe1f20c33, 0xfe777bbf, 0xc2fbd9d1, 0x21da9a9b, 0xb0638179, 0xcc899961, 0x846ee454, 0x8034229c);
    var r5 := Regs(0x9dc68b63, 0xe1f20c33, 0xfe777bbf, 0xc2fbd9d1, 0x8ada8930, 0xb0638179, 0xcc899961, 0x846ee454);
    var r6 := Regs(0xc2606d6d, 0x9dc68b63, 0xe1f20c33, 0xfe777bbf, 0xe1257970, 0x8ada8930, 0xb0638179, 0xcc899961);
    var r7 := Regs(0xa7a3623f, 0xc2606d6d, 0x9dc68b63, 0xe1f20c33, 0x49f5114a, 0xe1257970, 0x8ada8930, 0xb0638179);
    var r8 := Regs(0xc5d53d8d, 0xa7a3623f, 0xc2606d6d, 0x9dc68b63, 0xaa47c347, 0x49f5114a, 0xe1257970, 0x8ada8930);
    OneReach(h, k, w, 2, 0, 16, 0xe49b69c1, 0x61626380, r0, r1);
    OneReach(h, k, w, 2, 1, 17, 0xefbe4786, 0x000f0000, r1, r2);
    OneReach(h, k, w, 2, 2, 18, 0x0fc19dc6, 0x7da86405, r2, r3);
    OneReach(h, k, w, 2, 3, 19, 0x240ca1cc, 0x600003c6, r3, r4);
    OneReach(h, k, w, 2, 4, 20, 0x2de92c6f, 0x3e9d7b78, r4, r5);
    OneReach(h, k, w, 2, 5, 21, 0x4a7484aa, 0x0183fc00, r5, r6);
    OneReach(h, k, w, 2, 6, 22, 0x5cb0a9dc, 0x12dcbfdb, r6, r7);
    OneReach(h, k, w, 2, 7, 23, 0x76f988da, 0xe2e2c38e, r7, r8);
  }

  lemma After24(h: Regs, k: Table, w: seq<bv32>)
    requires Published(h, k) && Scheduled(w)
    ensures Reaches(h, k, w, 24,
      Regs(0xc5d53d8d, 0xa7a3623f, 0xc2606d6d, 0x9dc68b63, 0xaa47c347, 0x49f5114a, 0xe1257970, 0x8ada8930))
  {
    After16(h, k, w);
    Words16To31(w);
    assert Holds(k, 4) && Holds(k, 5);
    Rounds16To23(h, k, w);
  }

  lemma Rounds24To31(h: Regs, k: Table, w: seq<bv32>)
    requires |w| == 64 && QuadAt(w, 24) == Quad(0xc8215c1a, 0xb73679a2, 0xe5bc3909, 0x32663c5b)
    requires QuadAt(w, 28) == Quad(0x9d209d67, 0xec8726cb, 0x702138a4, 0xd3b7973b)
    requires QuadAt(k[3], 0) == Quad(0x983e5152, 0xa831c66d, 0xb00327c8, 0xbf597fc7)
    requires QuadAt(k[3], 4) == Quad(0xc6e00bf3, 0xd5a79147, 0x06ca6351, 0x14292967)
    requires Reaches(h, k, w, 24,
      Regs(0xc5d53d8d, 0xa7a3623f, 0xc2606d6d, 0x9dc68b63, 0xaa47c347, 0x49f5114a, 0xe1257970, 0x8ada8930))
    ensures Reaches(h, k, w, 32,
      Regs(0x73b33bf5, 0xea992a22, 0xa0060b30, 0x363482c9, 0xba591112, 0x0109ab3a, 0xade79437, 0x6112a3b7))
  {
    var r0 := Regs(0xc5d53d8d, 0xa7a3623f, 0xc2606d6d, 0x9dc68b63, 0xaa47c347, 0x49f5114a, 0xe1257970, 0x8ada8930);
    var r1 := Regs(0x1c2c2838, 0xc5d53d8d, 0xa7a3623f, 0xc2606d6d, 0x2823ef91, 0xaa47c347, 0x49f5114a, 0xe1257970);
    var r2 := Regs(0xcde8037d, 0x1c2c2838, 0xc5d53d8d, 0xa7a3623f, 0x14383d8e, 0x2823ef91, 0xaa47c347, 0x49f5114a);
    var r3 := Regs(0xb62ec4bc, 0xcde8037d, 0x1c2c2838, 0xc5d53d8d, 0xc74c6516, 0x14383d8e, 0x2823ef91, 0xaa47c347);
    var r4 := Regs(0x77d37528, 0xb62ec4bc, 0xcde8037d, 0x1c2c2838, 0xedffbff8, 0xc74c6516, 0x14383d8e, 0x2823ef91);
    var r5 := Regs(0x363482c9, 0x77d37528, 0xb62ec4bc, 0xcde8037d, 0x6112a3b7, 0xedffbff8, 0xc74c6516, 0x14383d8e);
    var r6 := Regs(0xa0060b30, 0x363482c9, 0x77d37528, 0xb62ec4bc, 0xade79437, 0x6112a3b7, 0xedffbff8, 0xc74c6516);
    var r7 := Regs(0xea992a22, 0xa0060b30, 0x363482c9, 0x77d37528, 0x0109ab3a, 0xade79437, 0x6112a3b7, 0xedffbff8);
    var r8 := Regs(0x73b33bf5, 0xea992a22, 0xa0060b30, 0x363482c9, 0xba591112, 0x0109ab3a, 0xade79437, 0x6112a3b7);
    OneReach(h, k, w, 3, 0, 24, 0x983e5152, 0xc8215c1a, r0, r1);
    OneReach(h, k, w, 3, 1, 25, 0xa831c66d, 0xb73679a2, r1, r2);
    OneReach(h, k, w, 3, 2, 26, 0xb00327c8, 0xe5bc3909, r2, r3);
    OneReach(h, k, w, 3, 3, 27, 0xbf597fc7, 0x32663c5b, r3, r4);
    OneReach(h, k, w, 3, 4, 28, 0xc6e00bf3, 0x9d209d67, r4, r5);
    OneReach(h, k, w, 3, 5, 29, 0xd5a79147, 0xec8726cb, r5, r6);
    OneReach(h, k, w, 3, 6, 30, 0x06ca6351, 0x702138a4, r6, r7);
    OneReach(h, k, w, 3, 7, 31, 0x14292967, 0xd3b7973b, r7, r8);
  }

  lemma After32(h: Regs, k: Table, w: seq<bv32>)
    requires Published(h, k) && Scheduled(w)
    ensures Reaches(h, k, w, 32,
      Regs(0x73b33bf5, 0xea992a22, 0xa0060b30, 0x363482c9, 0xba591112, 0x0109ab3a, 0xade79437, 0x6112a3b7))
  {
    After24(h, k, w);
    Words24To39(w);
    assert Holds(k, 6) && Holds(k, 7);
    Rounds24To31(h, k, w);
  }

  lemma Rounds32To39(h: Regs, k: Table, w: seq<bv32>)
    requires |w| == 64 && QuadAt(w, 32) == Quad(0x93f5997f, 0x3b68ba73, 0xaff4ffc1, 0xf10a5c62)
    requires QuadAt(w, 36) == Quad(0x0a8b3996, 0x72af830a, 0x9409e33e, 0x24641522)
    requires QuadAt(k[4], 0) == Quad(0x27b70a85, 0x2e1b2138, 0x4d2c6dfc, 0x53380d13)
    requires QuadAt(k[4], 4) == Quad(0x650a7354, 0x766a0abb, 0x81c2c92e, 0x92722c85)
    requires Reaches(h, k, w, 32,
      Regs(0x73b33bf5, 0xea992a22, 0xa0060b30, 0x363482c9, 0xba591112, 0x0109ab3a, 0xade79437, 0x6112a3b7))
    ensures Reaches(h, k, w, 40,
      Regs(0x79ea687a, 0x6dc57a8a, 0x34df1604, 0x41a65cb1, 0x1efbc0a0, 0xf0781bc8, 0xa507a53d, 0x0772a26b))
  {
    var r0 := Regs(0x73b33bf5, 0xea992a22, 0xa0060b30, 0x363482c9, 0xba591112, 0x0109ab3a, 0xade79437, 0x6112a3b7);
    var r1 := Regs(0x98e12507, 0x73b33bf5, 0xea992a22, 0xa0060b30, 0x9cd9f5f6, 0xba591112, 0x0109ab3a, 0xade79437);
    var r2 := Regs(0xfe604df5, 0x98e12507, 0x73b33bf5, 0xea992a22, 0x59249dd3, 0x9cd9f5f6, 0xba591112, 0x0109ab3a);
    var r3 := Regs(0xa9a7738c, 0xfe604df5, 0x98e12507, 0x73b33bf5, 0x085f3833, 0x59249dd3, 0x9cd9f5f6, 0xba591112);
    var r4 := Regs(0x65a0cfe4, 0xa9a7738c, 0xfe604df5, 0x98e12507, 0xf4b002d6, 0x085f3833, 0x59249dd3, 0x9cd9f5f6);
    var r5 := Regs(0x41a65cb1, 0x65a0cfe4, 0xa9a7738c, 0xfe604df5, 0x0772a26b, 0xf4b002d6, 0x085f3833, 0x59249dd3);
    var r6 := Regs(0x34df1604, 0x41a65cb1, 0x65a0cfe4, 0xa9a7738c, 0xa507a53d, 0x0772a26b, 0xf4b002d6, 0x085f3833);
    var r7 := Regs(0x6dc57a8a, 0x34df1604, 0x41a65cb1, 0x65a0cfe4, 0xf0781bc8, 0xa507a53d, 0x0772a26b, 0xf4b002d6);
    var r8 := Regs(0x79ea687a, 0x6dc57a8a, 0x34df1604, 0x41a65cb1, 0x1efbc0a0, 0xf0781bc8, 0xa507a53d, 0x0772a26b);
    OneReach(h, k, w, 4, 0, 32, 0x27b70a85, 0x93f5997f, r0, r1);
    OneReach(h, k, w, 4, 1, 33, 0x2e1b2138, 0x3b68ba73, r1, r2);
    OneReach(h, k, w, 4, 2, 34, 0x4d2c6dfc, 0xaff4ffc1, r2, r3);
    OneReach(h, k, w, 4, 3, 35, 0x53380d13, 0xf10a5c62, r3, r4);
    OneReach(h, k, w, 4, 4, 36, 0x650a7354, 0x0a8b3996, r4, r5);
    OneReach(h, k, w, 4, 5, 37, 0x766a0abb, 0x72af830a, r5, r6);
    OneReach(h, k, w, 4, 6, 38, 0x81c2c92e, 0x9409e33e, r6, r7);
    OneReach(h, k, w, 4, 7, 39, 0x92722c85, 0x24641522, r7, r8);
  }

  lemma After40(h: Regs, k: Table, w: seq<bv32>)
    requires Published(h, k) && Scheduled(w)
    ensures Reaches(h, k, w, 40,
      Regs(0x79ea687a, 0x6dc57a8a, 0x34df1604, 0x41a65cb1, 0x1efbc0a0, 0xf0781bc8, 0xa507a53d, 0x0772a26b))
  {
    After32(h, k, w);
    Words32To47(w);
    assert Holds(k, 8) && Holds(k, 9);
    Rounds32To39(h, k, w);
  }

  lemma Rounds40To47(h: Regs, k: Table, w: seq<bv32>)
    requires |w| == 64 && QuadAt(w, 40) == Quad(0x9f47bf94, 0xf0a64f5a, 0x3e246a79, 0x27333ba3)
    requires QuadAt(w, 44) == Quad(0x0c4763f2, 0x840abf27, 0x7a290d5d, 0x065c43da)
    requires QuadAt(k[5], 0) == Quad(0xa2bfe8a1, 0xa81a664b, 0xc24b8b70, 0xc76c51a3)
    requires QuadAt(k[5], 4) == Quad(0xd192e819, 0xd6990624, 0xf40e3585, 0x106aa070)
    requires Reaches(h, k, w, 40,
      Regs(0x79ea687a, 0x6dc57a8a, 0x34df1604, 0x41a65cb1, 0x1efbc0a0, 0xf0781bc8, 0xa507a53d, 0x0772a26b))
    ensures Reaches(h, k, w, 48,
      Regs(0x4172328d, 0xa14c14b0, 0x72ab4b91, 0x26628815, 0xfecf0bc6, 0xd57b94a9, 0xb7755da1, 0xa80f11f0))
  {
    var r0 := Regs(0x79ea687a, 0x6dc57a8a, 0x34df1604, 0x41a65cb1, 0x1efbc0a0, 0xf0781bc8, 0xa507a53d, 0x0772a26b);
    var r1 := Regs(0xd6670766, 0x79ea687a, 0x6dc57a8a, 0x34df1604, 0x26352d63, 0x1efbc0a0, 0xf0781bc8, 0xa507a53d);
    var r2 := Regs(0xdf46652f, 0xd6670766, 0x79ea687a, 0x6dc57a8a, 0x838b2711, 0x26352d63, 0x1efbc0a0, 0xf0781bc8);
    var r3 := Regs(0x17aa0dfe, 0xdf46652f, 0xd6670766, 0x79ea687a, 0xdecd4715, 0x838b2711, 0x26352d63, 0x1efbc0a0);
    var r4 := Regs(0x9d4baf93, 0x17aa0dfe, 0xdf46652f, 0xd6670766, 0xfda24c2e, 0xdecd4715, 0x838b2711, 0x26352d63);
    var r5 := Regs(0x26628815, 0x9d4baf93, 0x17aa0dfe, 0xdf46652f, 0xa80f11f0, 0xfda24c2e, 0xdecd4715, 0x838b2711);
    var r6 := Regs(0x72ab4b91, 0x26628815, 0x9d4baf93, 0x17aa0dfe, 0xb7755da1, 0xa80f11f0, 0xfda24c2e, 0xdecd4715);
    var r7 := Regs(0xa14c14b0, 0x72ab4b91, 0x26628815, 0x9d4baf93, 0xd57b94a9, 0xb7755da1, 0xa80f11f0, 0xfda24c2e);
    var r8 := Regs(0x4172328d, 0xa14c14b0, 0x72ab4b91, 0x26628815, 0xfecf0bc6, 0xd57b94a9, 0xb7755da1, 0xa80f11f0);
    OneReach(h, k, w, 5, 0, 40, 0xa2bfe8a1, 0x9f47bf94, r0, r1);
    OneReach(h, k, w, 5, 1, 41, 0xa81a664b, 0xf0a64f5a, r1, r2);
    OneReach(h, k, w, 5, 2, 42, 0xc24b8b70, 0x3e246a79, r2, r3);
    OneReach(h, k, w, 5, 3, 43, 0xc76c51a3, 0x27333ba3, r3, r4);
    OneReach(h, k, w, 5, 4, 44, 0xd192e819, 0x0c4763f2, r4, r5);
    OneReach(h, k, w, 5, 5, 45, 0xd6990624, 0x840abf27, r5, r6);
    OneReach(h, k, w, 5, 6, 46, 0xf40e3585, 0x7a290d5d, r6, r7);
    OneReach(h, k, w, 5, 7, 47, 0x106aa070, 0x065c43da, r7, r8);
  }

  lemma After48(h: Regs, k: Table, w: seq<bv32>)
    requires Published(h, k) && Scheduled(w)
    ensures Reaches(h, k, w, 48,
      Regs(0x4172328d, 0xa14c14b0, 0x72ab4b91, 0x26628815, 0xfecf0bc6, 0xd57b94a9, 0xb7755da1, 0xa80f11f0))
  {
    After40(h, k, w);
    Words40To55(w);
    assert Holds(k, 10) && Holds(k, 11);
    Rounds40To47(h, k, w);
  }

  lemma Rounds48To55(h: Regs, k: Table, w: seq<bv32>)
    requires |w| == 64 && QuadAt(w, 48) == Quad(0xfb3e89cb, 0xcc7617db, 0xb9e66c34, 0xa9993667)
    requires QuadAt(w, 52) == Quad(0x84badedd, 0xc21462bc, 0x1487472c, 0xb20f7a99)
    requires QuadAt(k[6], 0) == Quad(0x19a4c116, 0x1e376c08, 0x2748774c, 0x34b0bcb5)
    requires QuadAt(k[6], 4) == Quad(0x391c0cb3, 0x4ed8aa4a, 0x5b9cca4f, 0x682e6ff3)
    requires Reaches(h, k, w, 48,
      Regs(0x4172328d, 0xa14c14b0, 0x72ab4b91, 0x26628815, 0xfecf0bc6, 0xd57b94a9, 0xb7755da1, 0xa80f11f0))
    ensures Reaches(h, k, w, 56,
      Regs(0x38cc9913, 0x3ec45cdb, 0xf5702fdb, 0x101fd28f, 0x54cb266b, 0xe50e1b4f, 0x9f4787c3, 0x529e7d00))
  {
    var r0 := Regs(0x4172328d, 0xa14c14b0, 0x72ab4b91, 0x26628815, 0xfecf0bc6, 0xd57b94a9, 0xb7755da1, 0xa80f11f0);
    var r1 := Regs(0x05757ceb, 0x4172328d, 0xa14c14b0, 0x72ab4b91, 0xbd714038, 0xfecf0bc6, 0xd57b94a9, 0xb7755da1);
    var r2 := Regs(0xf11bfaa8, 0x05757ceb, 0x4172328d, 0xa14c14b0, 0x6e5c390c, 0xbd714038, 0xfecf0bc6, 0xd57b94a9);
    var r3 := Regs(0x7a0508a1, 0xf11bfaa8, 0x05757ceb, 0x4172328d, 0x52f1ccf7, 0x6e5c390c, 0xbd714038, 0xfecf0bc6);
    var r4 := Regs(0x886e7a22, 0x7a0508a1, 0xf11bfaa8, 0x05757ceb, 0x49231c1e, 0x52f1ccf7, 0x6e5c390c, 0xbd714038);
    var r5 := Regs(0x101fd28f, 0x886e7a22, 0x7a0508a1, 0xf11bfaa8, 0x529e7d00, 0x49231c1e, 0x52f1ccf7, 0x6e5c390c);
    var r6 := Regs(0xf5702fdb, 0x101fd28f, 0x886e7a22, 0x7a0508a1, 0x9f4787c3, 0x529e7d00, 0x49231c1e, 0x52f1ccf7);
    var r7 := Regs(0x3ec45cdb, 0xf5702fdb, 0x101fd28f, 0x886e7a22, 0xe50e1b4f, 0x9f4787c3, 0x529e7d00, 0x49231c1e);
    var r8 := Regs(0x38cc9913, 0x3ec45cdb, 0xf5702fdb, 0x101fd28f, 0x54cb266b, 0xe50e1b4f, 0x9f4787c3, 0x529e7d00);
    OneReach(h, k, w, 6, 0, 48, 0x19a4c116, 0xfb3e89cb, r0, r1);
    OneReach(h, k, w, 6, 1, 49, 0x1e376c08, 0xcc7617db, r1, r2);
    OneReach(h, k, w, 6, 2, 50, 0x2748774c, 0xb9e66c34, r2, r3);
    OneReach(h, k, w, 6, 3, 51, 0x34b0bcb5, 0xa9993667, r3, r4);
    OneReach(h, k, w, 6, 4, 52, 0x391c0cb3, 0x84badedd, r4, r5);
    OneReach(h, k, w, 6, 5, 53, 0x4ed8aa4a, 0xc21462bc, r5, r6);
    OneReach(h, k, w, 6, 6, 54, 0x5b9cca4f, 0x1487472c, r6, r7);
    OneReach(h, k, w, 6, 7, 55, 0x682e6ff3, 0xb20f7a99, r7, r8);
  }

  lemma After56(h: Regs, k: Table, w: seq<bv32>)
    requires Published(h, k) && Scheduled(w)
    ensures Reaches(h, k, w, 56,
      Regs(0x38cc9913, 0x3ec45cdb, 0xf5702fdb, 0x101fd28f, 0x54cb266b, 0xe50e1b4f, 0x9f4787c3, 0x529e7d00))
  {
    After48(h, k, w);
    Words48To63(w);
    assert Holds(k, 12) && Holds(k, 13);
    Rounds48To55(h, k, w);
  }

  lemma Rounds56To63(h: Regs, k: Table, w: seq<bv32>)
    requires |w| == 64 && QuadAt(w, 56) == Quad(0xef57b9cd, 0xebe6b238, 0x9fe3095e, 0x78bc8d4b)
    requires QuadAt(w, 60) == Quad(0xa43fcf15, 0x668b2ff8, 0xeeaba2cc, 0x12b1edeb)
    requires QuadAt(k[7], 0) == Quad(0x748f82ee, 0x78a5636f, 0x84c87814, 0x8cc70208)
    requires QuadAt(k[7], 4) == Quad(0x90befffa, 0xa4506ceb, 0xbef9a3f7, 0xc67178f2)
    requires Reaches(h, k, w, 56,
      Regs(0x38cc9913, 0x3ec45cdb, 0xf5702fdb, 0x101fd28f, 0x54cb266b, 0xe50e1b4f, 0x9f4787c3, 0x529e7d00))
    ensures Reaches(h, k, w, 64,
      Regs(0x506e3058, 0xd39a2165, 0x04d24d6c, 0xb85e2ce9, 0x5ef50f24, 0xfb121210, 0x948d25b6, 0x961f4894))
  {
    var r0 := Regs(0x38cc9913, 0x3ec45cdb, 0xf5702fdb, 0x101fd28f, 0x54cb266b, 0xe50e1b4f, 0x9f4787c3, 0x529e7d00);
    var r1 := Regs(0xfcd1887b, 0x38cc9913, 0x3ec45cdb, 0xf5702fdb, 0x9b5e906c, 0x54cb266b, 0xe50e1b4f, 0x9f4787c3);
    var r2 := Regs(0xc062d46f, 0xfcd1887b, 0x38cc9913, 0x3ec45cdb, 0x7e44008e, 0x9b5e906c, 0x54cb266b, 0xe50e1b4f);
    var r3 := Regs(0xffb70472, 0xc062d46f, 0xfcd1887b, 0x38cc9913, 0x6d83bfc6, 0x7e44008e, 0x9b5e906c, 0x54cb266b);
    var r4 := Regs(0xb6ae8fff, 0xffb70472, 0xc062d46f, 0xfcd1887b, 0xb21bad3d, 0x6d83bfc6, 0x7e44008e, 0x9b5e906c);
    var r5 := Regs(0xb85e2ce9, 0xb6ae8fff, 0xffb70472, 0xc062d46f, 0x961f4894, 0xb21bad3d, 0x6d83bfc6, 0x7e44008e);
    var r6 := Regs(0x04d24d6c, 0xb85e2ce9, 0xb6ae8fff, 0xffb70472, 0x948d25b6, 0x961f4894, 0xb21bad3d, 0x6d83bfc6);
    var r7 := Regs(0xd39a2165, 0x04d24d6c, 0xb85e2ce9, 0xb6ae8fff, 0xfb121210, 0x948d25b6, 0x961f4894, 0xb21bad3d);
    var r8 := Regs(0x506e3058, 0xd39a2165, 0x04d24d6c, 0xb85e2ce9, 0x5ef50f24, 0xfb121210, 0x948d25b6, 0x961f4894);
    OneReach(h, k, w, 7, 0, 56, 0x748f82ee, 0xef57b9cd, r0, r1);
    OneReach(h, k, w, 7, 1, 57, 0x78a5636f, 0xebe6b238, r1, r2);
    OneReach(h, k, w, 7, 2, 58, 0x84c87814, 0x9fe3095e, r2, r3);
    OneReach(h, k, w, 7, 3, 59, 0x8cc70208, 0x78bc8d4b, r3, r4);
    OneReach(h, k, w, 7, 4, 60, 0x90befffa, 0xa43fcf15, r4, r5);
    OneReach(h, k, w, 7, 5, 61, 0xa4506ceb, 0x668b2ff8, r5, r6);
    OneReach(h, k, w, 7, 6, 62, 0xbef9a3f7, 0xeeaba2cc, r6, r7);
    OneReach(h, k, w, 7, 7, 63, 0xc67178f2, 0x12b1edeb, r7, r8);
  }

  lemma After64(h: Regs, k: Table, w: seq<bv32>)
    requires Published(h, k) && Scheduled(w)
    ensures Reaches(h, k, w, 64,
      Regs(0x506e3058, 0xd39a2165, 0x04d24d6c, 0xb85e2ce9, 0x5ef50f24, 0xfb121210, 0x948d25b6, 0x961f4894))
  {
    After56(h, k, w);
    Words48To63(w);
    assert Holds(k, 14) && Holds(k, 15);
    Rounds56To63(h, k, w);
  }

  lemma RoundsAre(h: Regs, k: Table, w: seq<bv32>)
    requires Published(h, k) && Scheduled(w)
    ensures Rounds(h, k, w)
         == Regs(0x506e3058, 0xd39a2165, 0x04d24d6c, 0xb85e2ce9, 0x5ef50f24, 0xfb121210, 0x948d25b6, 0x961f4894)
  {
    After64(h, k, w);
    assert w[..64] == w;
    assert IsRounds(h, k, w, 64, Rounds(h, k, w));
  }

  lemma ConstantsPublished()
    ensures Published(Start(), K)
  {
    forall j {:trigger Holds(K, j)} | 0 <= j < 16 ensures Holds(K, j) {
      ConstantsAre(j);
    }
  }

  lemma AbcSum()
    ensures Sum(Start(), Regs(0x506e3058, 0xd39a2165, 0x04d24d6c, 0xb85e2ce9,
                              0x5ef50f24, 0xfb121210, 0x948d25b6, 0x961f4894))
         == Regs(0xba7816bf, 0x8f01cfea, 0x414140de, 0x5dae2223, 0xb00361a3, 0x96177a9c, 0xb410ff61, 0xf20015ad)
  {
  }

  lemma AbcCompressed(block: Block)
    requires block == Padded(ABC)
    ensures Compress(K, Start(), block)
         == Regs(0xba7816bf, 0x8f01cfea, 0x414140de, 0x5dae2223, 0xb00361a3, 0x96177a9c, 0xb410ff61, 0xf20015ad)
  {
    ConstantsPublished();
    ScheduleIs(block);
    RoundsAre(Start(), K, Schedule(block));
    AbcSum();
  }

  lemma AbcDigest()
    ensures DigestBytes(Regs(0xba7816bf, 0x8f01cfea, 0x414140de, 0x5dae2223,
                             0xb00361a3, 0x96177a9c, 0xb410ff61, 0xf20015ad))
         == [0xba, 0x78, 0x16, 0xbf, 0x8f, 0x01, 0xcf, 0xea, 0x41, 0x41, 0x40, 0xde, 0x5d, 0xae, 0x22, 0x23]
          + [0xb0, 0x03, 0x61, 0xa3, 0x96, 0x17, 0x7a, 0x9c, 0xb4, 0x10, 0xff, 0x61, 0xf2, 0x00, 0x15, 0xad]
  {
  }

  /** ba7816bf 8f01cfea 414140de 5dae2223 b00361a3 96177a9c b410ff61 f20015ad */
  lemma Abc()
    ensures Hash(ABC)
         == [0xba, 0x78, 0x16, 0xbf, 0x8f, 0x01, 0xcf, 0xea, 0x41, 0x41, 0x40, 0xde, 0x5d, 0xae, 0x22, 0x23]
          + [0xb0, 0x03, 0x61, 0xa3, 0x96, 0x17, 0x7a, 0x9c, 0xb4, 0x10, 0xff, 0x61, 0xf2, 0x00, 0x15, 0xad]
  {
    PaddedAbc();
    var block: Block := Padded(ABC);
    AbcIsOneBlock((r, b) => Compress(K, r, b), Start(), block);
    AbcCompressed(block);
    AbcDigest();
  }
}
