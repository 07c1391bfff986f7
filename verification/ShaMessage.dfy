/** What SHA-1 and SHA-256 share: FIPS 180-4, sections 5.1.1 and 5.2.1. A message is padded to whole
    blocks of 64 bytes, which a compression function folds into the state. */
module ShaMessage {
  import opened Basics

  type Block = b: seq<byte> | |b| == 64 witness seq(64, _ => 0)

  /** The state after a message of whole blocks. */
  ghost function Fold<S>(step: (S, Block) -> S, h: S, msg: seq<byte>): S
    requires |msg| % 64 == 0
    decreases |msg|
  {
    if msg == [] then h
    else step(Fold(step, h, msg[..|msg| - 64]), msg[|msg| - 64..])
  }

  lemma FoldBlock<S>(step: (S, Block) -> S, h: S, msg: seq<byte>, block: Block)
    requires |msg| % 64 == 0
    ensures Fold(step, h, msg + block) == step(Fold(step, h, msg), block)
  {
    assert (msg + block)[..|msg|] == msg && (msg + block)[|msg|..] == block;
  }

  /** The whole blocks of a message, and what is left over. */
  function Whole(msg: seq<byte>): (r: seq<byte>)
    ensures |r| % 64 == 0
  {
    msg[..|msg| - |msg| % 64]
  }

  function Rest(msg: seq<byte>): seq<byte> {
    msg[|msg| - |msg| % 64..]
  }

  /** Cutting a message after whole blocks with less than a block to follow is the only such cut. */
  lemma SplitWhole(msg: seq<byte>, whole: seq<byte>, rest: seq<byte>)
    requires msg == whole + rest && |whole| % 64 == 0 && |rest| < 64
    ensures Whole(msg) == whole && Rest(msg) == rest
  {
    assert |msg| % 64 == |rest|;
  }

  lemma WholeAndRest(msg: seq<byte>)
    ensures Whole(msg) + Rest(msg) == msg && |Rest(msg)| == |msg| % 64
  {
  }

  function Zeros(n: nat): (r: seq<byte>)
    ensures |r| == n
  {
    seq(n, _ => 0)
  }

  function Octet(n: nat): byte {
    n % 256
  }

  /** The four bytes of a 32-bit number, most significant first. */
  function Octets32(n: nat): (r: seq<byte>)
    ensures |r| == 4
  {
    [Octet(n / 0x100_0000), Octet(n / 0x1_0000), Octet(n / 0x100), Octet(n)]
  }

  /** The length field: the number of bits of the message, in 64 bits. */
  function LengthField(bits: nat): (r: seq<byte>)
    ensures |r| == 8
  {
    Octets32(bits / 0x1_0000_0000 % 0x1_0000_0000) + Octets32(bits % 0x1_0000_0000)
  }

  /** Bytes read as a number, most significant first. */
  function Number(s: seq<byte>): nat {
    if s == [] then 0 else 256 * Number(s[..|s| - 1]) + s[|s| - 1] as int
  }

  lemma NumberOfFour(s: seq<byte>, t: seq<byte>)
    requires |t| == 4
    ensures Number(s + t)
         == 0x1_0000_0000 * Number(s) + 0x100_0000 * t[0] as int + 0x1_0000 * t[1] as int + 0x100 * t[2] as int
            + t[3] as int
  {
    NumberOfOne(s + t, s + t[..3], t[3]);
    NumberOfOne(s + t[..3], s + t[..2], t[2]);
    NumberOfOne(s + t[..2], s + t[..1], t[1]);
    NumberOfOne(s + t[..1], s, t[0]);
  }

  lemma NumberOfOne(s: seq<byte>, front: seq<byte>, b: byte)
    requires s == front + [b]
    ensures Number(s) == 256 * Number(front) + b as int
  {
    assert s[..|s| - 1] == front;
  }

  lemma OctetsAreNumber(n: nat)
    requires n < 0x1_0000_0000
    ensures var t := Octets32(n);
      n == 0x100_0000 * t[0] as int + 0x1_0000 * t[1] as int + 0x100 * t[2] as int + t[3] as int
  {
    var a: nat, b: nat, c: nat := n / 0x100, n / 0x1_0000, n / 0x100_0000;
    assert a / 0x100 == b && b / 0x100 == c && c < 256;
    assert n == 256 * a + n % 256 && a == 256 * b + a % 256 && b == 256 * c + b % 256;
  }

  /** The length field holds the number of bits modulo 2^64, most significant byte first. */
  lemma FieldIsNumber(bits: nat)
    ensures Number(LengthField(bits)) == bits % 0x1_0000_0000_0000_0000
  {
    var high: nat, low: nat := bits / 0x1_0000_0000 % 0x1_0000_0000, bits % 0x1_0000_0000;
    NumberOfFour(Octets32(high), Octets32(low));
    NumberOfFour([], Octets32(high));
    assert [] + Octets32(high) == Octets32(high) && Number([]) == 0;
    OctetsAreNumber(high);
    OctetsAreNumber(low);
    TwoHalves(bits, bits / 0x1_0000_0000, bits / 0x1_0000_0000 / 0x1_0000_0000, high, low);
  }

  lemma TwoHalves(x: nat, top: nat, q: nat, high: nat, low: nat)
    requires x == top * 0x1_0000_0000 + low && low < 0x1_0000_0000
    requires top == q * 0x1_0000_0000 + high && high < 0x1_0000_0000
    ensures x % 0x1_0000_0000_0000_0000 == high * 0x1_0000_0000 + low
  {
    Remainder64(x, q, high * 0x1_0000_0000 + low);
  }

  lemma Remainder64(x: nat, q: nat, r: nat)
    requires x == q * 0x1_0000_0000_0000_0000 + r && r < 0x1_0000_0000_0000_0000
    ensures x % 0x1_0000_0000_0000_0000 == r
  {
  }

  /** The number of zero bytes after the byte 0x80. */
  function ZeroCount(n: nat): (k: nat) {
    if n % 64 < 56 then 55 - n % 64 else 119 - n % 64
  }

  lemma Modulo(x: int, q: int, r: int)
    requires x == 64 * q + r && 0 <= r < 64
    ensures x % 64 == r
  {
  }

  lemma ZeroCountFits(n: nat)
    ensures (n + 1 + ZeroCount(n)) % 64 == 56
  {
    var q := n / 64;
    Modulo(n + 1 + ZeroCount(n), if n % 64 < 56 then q else q + 1, 56);
  }

  /** Section 5.1.1: `k` is the least solution of l + 1 + k = 448 (mod 512), here in bytes. */
  lemma ZeroCountIsLeast(n: nat, k: nat)
    ensures (n + 1 + ZeroCount(n)) % 64 == 56
    ensures (n + 1 + k) % 64 == 56 ==> ZeroCount(n) <= k
  {
    ZeroCountFits(n);
    if (n + 1 + k) % 64 == 56 {
      var t := (n + 1 + k) / 64 - n / 64;
      assert k == 64 * t + 55 - n % 64;
    }
  }

  /** The padded message. FIPS 180-4 defines it for messages below 2^64 bits. */
  function Padded(msg: seq<byte>): (r: seq<byte>)
    ensures |r| % 64 == 0
  {
    Pad(msg, LengthField(8 * |msg|))
  }

  function Pad(msg: seq<byte>, field: seq<byte>): (r: seq<byte>)
    requires |field| == 8
    ensures |r| % 64 == 0
  {
    ZeroCountFits(|msg|);
    var r := msg + [0x80] + Zeros(ZeroCount(|msg|)) + field;
    Modulo(|r|, (|msg| + 1 + ZeroCount(|msg|)) / 64 + 1, 0);
    r
  }

  /** A message from its pieces. */
  function Concat(pieces: seq<seq<byte>>): seq<byte> {
    if pieces == [] then [] else Concat(pieces[..|pieces| - 1]) + pieces[|pieces| - 1]
  }

  lemma OneMore(pieces: seq<seq<byte>>, k: nat)
    requires k < |pieces|
    ensures Concat(pieces[..k + 1]) == Concat(pieces[..k]) + pieces[k]
  {
    assert pieces[..k + 1][..k] == pieces[..k];
  }

  /** `memcpy(&buffer[at], data, |data|)`. */
  method Copy(buffer: array<byte>, at: nat, data: seq<byte>)
    requires at + |data| <= buffer.Length
    modifies buffer
    ensures buffer[..] == old(buffer[..at]) + data + old(buffer[at + |data|..])
  {
    var k := 0;
    while k < |data|
      invariant k <= |data|
      invariant forall j :: 0 <= j < k ==> buffer[at + j] == data[j]
      invariant forall j :: 0 <= j < at || at + k <= j < buffer.Length ==> buffer[j] == old(buffer[j])
    {
      buffer[at + k] := data[k];
      k := k + 1;
    }
  }

  // ---------------------------------------------------------------- words

  function Bits(b: byte): bv32 {
    b as bv32
  }

  lemma BitsFit(b: byte)
    ensures Bits(b) <= 255
  {
  }

  /** A word is four bytes, most significant first. */
  function Word(b0: byte, b1: byte, b2: byte, b3: byte): bv32 {
    (Bits(b0) << 24) | (Bits(b1) << 16) | (Bits(b2) << 8) | Bits(b3)
  }

  function Low(x: bv32): byte {
    (x & 255) as byte
  }

  function WordBytes(x: bv32): (r: seq<byte>)
    ensures |r| == 4
  {
    [Low(x >> 24), Low(x >> 16), Low(x >> 8), Low(x)]
  }

  function Ch(x: bv32, y: bv32, z: bv32): bv32 { (x & y) ^ (!x & z) }

  function Maj(x: bv32, y: bv32, z: bv32): bv32 { (x & y) ^ (x & z) ^ (y & z) }

  /** Addition modulo 2^32. */
  function Plus(x: bv32, y: bv32): bv32 { x + y }
}
