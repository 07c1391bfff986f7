/** The message "abc" and its only block, for the examples of both hashes. */
module ShaExample {
  import opened Basics
  import opened ShaMessage

  const ABC: seq<byte> := [0x61, 0x62, 0x63]

  /** Four words. */
  datatype Quad = Quad(w0: bv32, w1: bv32, w2: bv32, w3: bv32)

  function QuadAt(w: seq<bv32>, i: nat): Quad
    requires i + 4 <= |w|
  {
    Quad(w[i], w[i + 1], w[i + 2], w[i + 3])
  }

  lemma PaddedAbc()
    ensures Padded(ABC) == [0x61, 0x62, 0x63, 0x80] + Zeros(59) + [24]
  {
    assert ZeroCount(3) == 52;
    assert LengthField(24) == Zeros(7) + [24];
    assert Zeros(52) + (Zeros(7) + [24]) == Zeros(59) + [24];
    assert ABC + [0x80] == [0x61, 0x62, 0x63, 0x80];
  }

  lemma AbcIsOneBlock<S>(step: (S, Block) -> S, h: S, block: Block)
    requires block == Padded(ABC)
    ensures Fold(step, h, Padded(ABC)) == step(h, block)
  {
    FoldBlock(step, h, [], block);
    assert [] + block == Padded(ABC);
  }

  lemma ThreeWords()
    ensures Word(0x61, 0x62, 0x63, 0x80) == 0x61626380 && Word(0, 0, 0, 24) == 24 && Word(0, 0, 0, 0) == 0
  {
  }

  lemma AbcBytes(k: nat)
    requires k < 64
    ensures |Padded(ABC)| == 64
    ensures Padded(ABC)[k] == if k < 4 then [0x61, 0x62, 0x63, 0x80][k] else if k == 63 then 24 else 0
  {
    PaddedAbc();
  }

  lemma AbcWords(t: nat)
    requires t < 16
    ensures |Padded(ABC)| == 64
    ensures var b := Padded(ABC);
      Word(b[4 * t], b[4 * t + 1], b[4 * t + 2], b[4 * t + 3])
      == if t == 0 then 0x61626380 else if t == 15 then 24 else 0
  {
    AbcBytes(4 * t);
    AbcBytes(4 * t + 1);
    AbcBytes(4 * t + 2);
    AbcBytes(4 * t + 3);
    ThreeWords();
  }
}
