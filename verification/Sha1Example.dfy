/** The digest of the message "abc" is the one that the examples of FIPS 180 give for it. */
module Sha1Example {
  import opened Basics
  import opened ShaMessage
  import opened ShaExample
  import opened Sha1Spec

  /** Eight words of the schedule. */
  datatype Row = Row(w0: bv32, w1: bv32, w2: bv32, w3: bv32, w4: bv32, w5: bv32, w6: bv32, w7: bv32)

  function RowAt(w: seq<bv32>, i: nat): Row
    requires i + 8 <= |w|
  {
    Row(w[i], w[i + 1], w[i + 2], w[i + 3], w[i + 4], w[i + 5], w[i + 6], w[i + 7])
  }

  /** The next eight words of the schedule from the sixteen before them. */
  function NextRow(p: Row, q: Row): Row {
    var w0 := Mix(q.w5, q.w0, p.w2, p.w0);
    var w1 := Mix(q.w6, q.w1, p.w3, p.w1);
    var w2 := Mix(q.w7, q.w2, p.w4, p.w2);
    var w3 := Mix(w0, q.w3, p.w5, p.w3);
    var w4 := Mix(w1, q.w4, p.w6, p.w4);
    Row(w0, w1, w2, w3, w4, Mix(w2, q.w5, p.w7, p.w5), Mix(w3, q.w6, q.w0, p.w6), Mix(w4, q.w7, q.w1, p.w7))
  }

  /** Four and eight rounds, from round `t` on. */
  function Four(r: Regs, t: nat, w0: bv32, w1: bv32, w2: bv32, w3: bv32): Regs {
    Step(Step(Step(Step(r, t, w0), t + 1, w1), t + 2, w2), t + 3, w3)
  }

  function Eight(r: Regs, t: nat, w: Row): Regs {
    Four(Four(r, t, w.w0, w.w1, w.w2, w.w3), t + 4, w.w4, w.w5, w.w6, w.w7)
  }

  lemma WordNext(block: Block, t: nat)
    requires 16 <= t < 80
    ensures var w := Schedule(block); w[t] == Mix(w[t - 3], w[t - 8], w[t - 14], w[t - 16])
  {
    ScheduleAt(block, t);
    ScheduleAt(block, t - 3);
    ScheduleAt(block, t - 8);
    ScheduleAt(block, t - 14);
    ScheduleAt(block, t - 16);
  }

  lemma RowsNext(block: Block, i: nat)
    requires i + 24 <= 80
    ensures var w := Schedule(block); RowAt(w, i + 16) == NextRow(RowAt(w, i), RowAt(w, i + 8))
  {
    WordNext(block, i + 16);
    WordNext(block, i + 17);
    WordNext(block, i + 18);
    WordNext(block, i + 19);
    WordNext(block, i + 20);
    WordNext(block, i + 21);
    WordNext(block, i + 22);
    WordNext(block, i + 23);
  }

  lemma FourRounds(h: Regs, w: seq<bv32>, t: nat)
    requires t + 4 <= |w|
    ensures Rounds(h, w[..t + 4]) == Four(Rounds(h, w[..t]), t, w[t], w[t + 1], w[t + 2], w[t + 3])
  {
    RoundsStep(h, w, t);
    RoundsStep(h, w, t + 1);
    RoundsStep(h, w, t + 2);
    RoundsStep(h, w, t + 3);
  }

  lemma EightRounds(h: Regs, w: seq<bv32>, t: nat)
    requires t + 8 <= |w|
    ensures Rounds(h, w[..t + 8]) == Eight(Rounds(h, w[..t]), t, RowAt(w, t))
  {
    FourRounds(h, w, t);
    FourRounds(h, w, t + 4);
  }

  /** The schedule holds these two rows before round `t`, and the working variables are `r`. */
  ghost predicate Reached(block: Block, t: nat, p: Row, q: Row, r: Regs) {
    && 16 <= t + 16 <= 80 && RowAt(Schedule(block), t) == p && RowAt(Schedule(block), t + 8) == q
    && Rounds(INITIAL, Schedule(block)[..t]) == r
  }

  lemma ReachedNext(block: Block, k: nat, p: Row, q: Row, r: Regs)
    requires k < 8 && Reached(block, 8 * k, p, q, r)
    ensures Reached(block, 8 * k + 8, q, NextRow(p, q), Eight(r, 8 * k, p))
  {
    EightRounds(INITIAL, Schedule(block), 8 * k);
    RowsNext(block, 8 * k);
  }

  lemma FirstRows(block: Block)
    requires block == Padded(ABC)
    ensures RowAt(Schedule(block), 0) == Row(0x61626380, 0x00000000, 0x00000000, 0x00000000,
                                             0x00000000, 0x00000000, 0x00000000, 0x00000000)
    ensures RowAt(Schedule(block), 8) == Row(0x00000000, 0x00000000, 0x00000000, 0x00000000,
                                             0x00000000, 0x00000000, 0x00000000, 0x00000018)
  {
    forall t | 0 <= t < 16
      ensures Schedule(block)[t] == if t == 0 then 0x61626380 else if t == 15 then 24 else 0
    {
      ScheduleAt(block, t);
      AbcWords(t);
    }
  }

  lemma Before0(block: Block)
    requires block == Padded(ABC)
    ensures Reached(block, 0, Row(0x61626380, 0x00000000, 0x00000000, 0x00000000,
                                  0x00000000, 0x00000000, 0x00000000, 0x00000000),
                    Row(0x00000000, 0x00000000, 0x00000000, 0x00000000, 0x00000000, 0x00000000, 0x00000000, 0x00000018),
                    Regs(0x67452301, 0xefcdab89, 0x98badcfe, 0x10325476, 0xc3d2e1f0))
  {
    FirstRows(block);
  }

  lemma Before8(block: Block)
    requires block == Padded(ABC)
    ensures Reached(block, 8, Row(0x00000000, 0x00000000, 0x00000000, 0x00000000,
                                  0x00000000, 0x00000000, 0x00000000, 0x00000018),
                    Row(0xc2c4c700, 0x00000000, 0x00000030, 0x85898e01, 0x00000000, 0x00000060, 0x0b131c03, 0x00000030),
                    Regs(0x9e8c07d4, 0x993e30c1, 0x0ff1f290, 0xb3f52677, 0xf3763846))
  {
    Before0(block);
    ReachedNext(block, 0, Row(0x61626380, 0x00000000, 0x00000000, 0x00000000,
                              0x00000000, 0x00000000, 0x00000000, 0x00000000),
                Row(0x00000000, 0x00000000, 0x00000000, 0x00000000, 0x00000000, 0x00000000, 0x00000000, 0x00000018),
                Regs(0x67452301, 0xefcdab89, 0x98badcfe, 0x10325476, 0xc3d2e1f0));
  }

  lemma Before16(block: Block)
    requires block == Padded(ABC)
    ensures Reached(block, 16, Row(0xc2c4c700, 0x00000000, 0x00000030, 0x85898e01,
                                   0x00000000, 0x00000060, 0x0b131c03, 0x00000030),
                    Row(0x85898ec1, 0x16263806, 0x00000000, 0x00000180, 0x2c4c700c, 0x000000f0, 0x93afb507, 0x5898e048),
                    Regs(0x20bdd62f, 0x196bee77, 0x644a3da5, 0x1181ed99, 0x18c623f9))
  {
    Before8(block);
    ReachedNext(block, 1, Row(0x00000000, 0x00000000, 0x00000000, 0x00000000,
                              0x00000000, 0x00000000, 0x00000000, 0x00000018),
                Row(0xc2c4c700, 0x00000000, 0x00000030, 0x85898e01, 0x00000000, 0x00000060, 0x0b131c03, 0x00000030),
                Regs(0x9e8c07d4, 0x993e30c1, 0x0ff1f290, 0xb3f52677, 0xf3763846));
  }

  lemma Before24(block: Block)
    requires block == Padded(ABC)
    ensures Reached(block, 24, Row(0x85898ec1, 0x16263806, 0x00000000, 0x00000180,
                                   0x2c4c700c, 0x000000f0, 0x93afb507, 0x5898e048),
                    Row(0x8e9a9202, 0x00000600, 0xb131c0f0, 0x16263bc6, 0x4ebed41e, 0x626380a1, 0x16263806, 0x000018c0),
                    Regs(0xd541f12d, 0x21283486, 0x0ce88eff, 0x868dec32, 0x7f67875f))
  {
    Before16(block);
    ReachedNext(block, 2, Row(0xc2c4c700, 0x00000000, 0x00000030, 0x85898e01,
                              0x00000000, 0x00000060, 0x0b131c03, 0x00000030),
                Row(0x85898ec1, 0x16263806, 0x00000000, 0x00000180, 0x2c4c700c, 0x000000f0, 0x93afb507, 0x5898e048),
                Regs(0x20bdd62f, 0x196bee77, 0x644a3da5, 0x1181ed99, 0x18c623f9));
  }

  lemma Before32(block: Block)
    requires block == Padded(ABC)
    ensures Reached(block, 32, Row(0x8e9a9202, 0x00000600, 0xb131c0f0, 0x16263bc6,
                                   0x4ebed41e, 0x626380a1, 0x16263806, 0x000018c0),
                    Row(0xd2e138c4, 0x00000f00, 0x3afb5079, 0x898e04e5, 0xe2ba3c2b, 0x000060c0, 0x053a37cd, 0x74458547),
                    Regs(0x3b845d33, 0x1267b407, 0x717eebd7, 0xa0dc2d4b, 0xd2aa1365))
  {
    Before24(block);
    ReachedNext(block, 3, Row(0x85898ec1, 0x16263806, 0x00000000, 0x00000180,
                              0x2c4c700c, 0x000000f0, 0x93afb507, 0x5898e048),
                Row(0x8e9a9202, 0x00000600, 0xb131c0f0, 0x16263bc6, 0x4ebed41e, 0x626380a1, 0x16263806, 0x000018c0),
                Regs(0xd541f12d, 0x21283486, 0x0ce88eff, 0x868dec32, 0x7f67875f));
  }

  lemma Before40(block: Block)
    requires block == Padded(ABC)
    ensures Reached(block, 40, Row(0xd2e138c4, 0x00000f00, 0x3afb5079, 0x898e04e5,
                                   0xe2ba3c2b, 0x000060c0, 0x053a37cd, 0x74458547),
                    Row(0xda9415ed, 0x26380a16, 0x626383a1, 0x4ebf54de, 0x3835b44b, 0x0000f600, 0x1e84c7a3, 0x98e04d98),
                    Regs(0x32de1cba, 0x4c986405, 0xf718e5cf, 0x03d447f6, 0xf72eec32))
  {
    Before32(block);
    ReachedNext(block, 4, Row(0x8e9a9202, 0x00000600, 0xb131c0f0, 0x16263bc6,
                              0x4ebed41e, 0x626380a1, 0x16263806, 0x000018c0),
                Row(0xd2e138c4, 0x00000f00, 0x3afb5079, 0x898e04e5, 0xe2ba3c2b, 0x000060c0, 0x053a37cd, 0x74458547),
                Regs(0x3b845d33, 0x1267b407, 0x717eebd7, 0xa0dc2d4b, 0xd2aa1365));
  }

  lemma Before48(block: Block)
    requires block == Padded(ABC)
    ensures Reached(block, 48, Row(0xda9415ed, 0x26380a16, 0x626383a1, 0x4ebf54de,
                                   0x3835b44b, 0x0000f600, 0x1e84c7a3, 0x98e04d98),
                    Row(0x651d16a0, 0x62658ca1, 0x458544d6, 0x44584cb7, 0x7ba06619, 0x6380aea2, 0x0ae55269, 0x627b49a1),
                    Regs(0xbead02ca, 0xa01b846c, 0x8714787c, 0x503ca382, 0xfb86c6ab))
  {
    Before40(block);
    ReachedNext(block, 5, Row(0xd2e138c4, 0x00000f00, 0x3afb5079, 0x898e04e5,
                              0xe2ba3c2b, 0x000060c0, 0x053a37cd, 0x74458547),
                Row(0xda9415ed, 0x26380a16, 0x626383a1, 0x4ebf54de, 0x3835b44b, 0x0000f600, 0x1e84c7a3, 0x98e04d98),
                Regs(0x32de1cba, 0x4c986405, 0xf718e5cf, 0x03d447f6, 0xf72eec32));
  }

  lemma Before56(block: Block)
    requires block == Padded(ABC)
    ensures Reached(block, 56, Row(0x651d16a0, 0x62658ca1, 0x458544d6, 0x44584cb7,
                                   0x7ba06619, 0x6380aea2, 0x0ae55269, 0x627b49a1),
                    Row(0x7cd45c9d, 0x000f0000, 0xfb50753a, 0xec6765e8, 0xba3c2be2, 0x0060c000, 0x3a37cd05, 0x458546f4),
                    Regs(0x5e6456af, 0x7b71f76d, 0x09fa7c76, 0x792410db, 0x8e11eb59))
  {
    Before48(block);
    ReachedNext(block, 6, Row(0xda9415ed, 0x26380a16, 0x626383a1, 0x4ebf54de,
                              0x3835b44b, 0x0000f600, 0x1e84c7a3, 0x98e04d98),
                Row(0x651d16a0, 0x62658ca1, 0x458544d6, 0x44584cb7, 0x7ba06619, 0x6380aea2, 0x0ae55269, 0x627b49a1),
                Regs(0xbead02ca, 0xa01b846c, 0x8714787c, 0x503ca382, 0xfb86c6ab));
  }

  lemma Before64(block: Block)
    requires block == Padded(ABC)
    ensures Reached(block, 64, Row(0x7cd45c9d, 0x000f0000, 0xfb50753a, 0xec6765e8,
                                   0xba3c2be2, 0x0060c000, 0x3a37cd05, 0x458546f4),
                    Row(0xb8599dd6, 0x380a1a26, 0x01e02203, 0xe7cc3456, 0xe6e60b69, 0x00f60a00, 0x5795ef4f, 0x822e0879),
                    Regs(0x6b61c9e1, 0xb66c020b, 0x9523272c, 0xf5d5b051, 0x8fd4b796))
  {
    Before56(block);
    ReachedNext(block, 7, Row(0x651d16a0, 0x62658ca1, 0x458544d6, 0x44584cb7,
                              0x7ba06619, 0x6380aea2, 0x0ae55269, 0x627b49a1),
                Row(0x7cd45c9d, 0x000f0000, 0xfb50753a, 0xec6765e8, 0xba3c2be2, 0x0060c000, 0x3a37cd05, 0x458546f4),
                Regs(0x5e6456af, 0x7b71f76d, 0x09fa7c76, 0x792410db, 0x8e11eb59));
  }

  lemma Before72(block: Block)
    requires block == Padded(ABC)
    ensures Rounds(INITIAL, Schedule(block)[..72]) == Regs(0x39859de7, 0xc199f8c7, 0x8fc96230, 0x125c24f0, 0xde37534a)
  {
    Before64(block);
    EightRounds(INITIAL, Schedule(block), 64);
  }

  lemma Before80(block: Block)
    requires block == Padded(ABC)
    ensures Rounds(INITIAL, Schedule(block)[..80]) == Regs(0x42541b35, 0x5738d5e1, 0x21834873, 0x681e6df6, 0xd8fdf6ad)
  {
    Before64(block);
    Before72(block);
    EightRounds(INITIAL, Schedule(block), 72);
  }

  /** a9993e36 4706816a ba3e2571 7850c26c 9cd0d89d */
  lemma Abc()
    ensures Hash(ABC) == [0xa9, 0x99, 0x3e, 0x36, 0x47, 0x06, 0x81, 0x6a, 0xba, 0x3e]
                       + [0x25, 0x71, 0x78, 0x50, 0xc2, 0x6c, 0x9c, 0xd0, 0xd8, 0x9d]
  {
    PaddedAbc();
    var block: Block := Padded(ABC);
    AbcIsOneBlock((r, b) => Compress(r, b), INITIAL, block);
    Before80(block);
    assert Schedule(block)[..80] == Schedule(block);
    AbcSum();
    AbcBytesOf();
  }

  lemma AbcSum()
    ensures Sum(INITIAL, Regs(0x42541b35, 0x5738d5e1, 0x21834873, 0x681e6df6, 0xd8fdf6ad))
         == Regs(0xa9993e36, 0x4706816a, 0xba3e2571, 0x7850c26c, 0x9cd0d89d)
  {
  }

  lemma AbcBytesOf()
    ensures DigestBytes(Regs(0xa9993e36, 0x4706816a, 0xba3e2571, 0x7850c26c, 0x9cd0d89d))
         == [0xa9, 0x99, 0x3e, 0x36, 0x47, 0x06, 0x81, 0x6a, 0xba, 0x3e]
          + [0x25, 0x71, 0x78, 0x50, 0xc2, 0x6c, 0x9c, 0xd0, 0xd8, 0x9d]
  {
  }
}
