/** `SHA256_CTX`: a message arrives byte by byte, blocks are compressed as they fill up, and the padding
    is written into the buffer. */
module Sha256Stream {
  import opened Basics
  import opened ShaMessage
  import opened Sha256Constants
  import opened Sha256Spec
  import opened Sha256

  function Start(): Regs {
    Regs(INITIAL[0], INITIAL[1], INITIAL[2], INITIAL[3], INITIAL[4], INITIAL[5], INITIAL[6], INITIAL[7])
  }

  /** SHA-256 of a message. */
  ghost function Hash(msg: seq<byte>): (digest: seq<byte>)
    ensures |digest| == 32
  {
    DigestBytes(HashFrom(K, Start(), Padded(msg)))
  }

  /** The hash value after the whole blocks `msg`. */
  ghost predicate Hashed(h: Regs, msg: seq<byte>) {
    |msg| % 64 == 0 && h == HashFrom(K, Start(), msg)
  }

  method SetStart(state: array<bv32>)
    requires state.Length == 8
    modifies state
    ensures RegsOf(state) == Start()
  {
    state[0] := 0x6a09e667;
    state[1] := 0xbb67ae85;
    state[2] := 0x3c6ef372;
    state[3] := 0xa54ff53a;
    state[4] := 0x510e527f;
    state[5] := 0x9b05688c;
    state[6] := 0x1f83d9ab;
    state[7] := 0x5be0cd19;
  }

  lemma HashedEmpty()
    ensures Hashed(Start(), [])
  {
  }

  /** One more block. */
  method Absorb(state: array<bv32>, block: Block, ghost msg: seq<byte>)
    requires state.Length == 8 && Hashed(RegsOf(state), msg)
    modifies state
    ensures Hashed(RegsOf(state), msg + block)
  {
    HashFromBlock(K, Start(), msg, block);
    Transform(state, K, block);
  }

  /** The bit counter of the compressed blocks, modulo 2^64. */
  ghost predicate BitsOfBlocks(bitlen: nat, n: nat) {
    bitlen == 8 * (n - n % 64) % 0x1_0000_0000_0000_0000
  }

  lemma AddWrapped(x: nat, y: nat)
    ensures (x % 0x1_0000_0000_0000_0000 + y) % 0x1_0000_0000_0000_0000 == (x + y) % 0x1_0000_0000_0000_0000
  {
    var q: nat, z: nat := x / 0x1_0000_0000_0000_0000, x % 0x1_0000_0000_0000_0000 + y;
    var p: nat, r: nat := z / 0x1_0000_0000_0000_0000, z % 0x1_0000_0000_0000_0000;
    assert x + y == (q + p) * 0x1_0000_0000_0000_0000 + r;
  }

  lemma BitsKept(bitlen: nat, n: nat, m: nat)
    requires BitsOfBlocks(bitlen, n) && m == n + 1 && n % 64 != 63
    ensures BitsOfBlocks(bitlen, m) && m % 64 == n % 64 + 1
  {
    Modulo(m, n / 64, n % 64 + 1);
    assert m - m % 64 == n - n % 64;
  }

  lemma BitsGrow(bitlen: nat, n: nat, m: nat)
    requires BitsOfBlocks(bitlen, n) && m == n + 1 && n % 64 == 63
    ensures BitsOfBlocks((bitlen + 512) % 0x1_0000_0000_0000_0000, m) && m % 64 == 0
  {
    Modulo(m, n / 64 + 1, 0);
    AddWrapped(8 * (n - n % 64), 512);
    assert 8 * (m - m % 64) == 8 * (n - n % 64) + 512;
  }

  /** `final` adds the bits still in the buffer. */
  lemma BitsOfAll(bitlen: nat, n: nat)
    requires BitsOfBlocks(bitlen, n)
    ensures (bitlen + n % 64 * 8) % 0x1_0000_0000_0000_0000 == 8 * n % 0x1_0000_0000_0000_0000
  {
    AddWrapped(8 * (n - n % 64), n % 64 * 8);
  }

  /** The eight bytes of a 64-bit number, most significant first. */
  function Octets64(b: nat): (r: seq<byte>)
    ensures |r| == 8
  {
    [Octet(b / 0x100_0000_0000_0000), Octet(b / 0x1_0000_0000_0000), Octet(b / 0x100_0000_0000),
     Octet(b / 0x1_0000_0000), Octet(b / 0x100_0000), Octet(b / 0x1_0000), Octet(b / 0x100), Octet(b)]
  }

  /** The bytes that `final` cuts off its counter are the length field. */
  lemma FieldBytes(bits: nat, b: nat)
    requires b == bits % 0x1_0000_0000_0000_0000
    ensures Octets64(b) == LengthField(bits)
  {
    Halves(bits);
    HighBytes(b, b / 0x1_0000_0000, b % 0x1_0000_0000);
    LowBytes(b, b / 0x1_0000_0000, b % 0x1_0000_0000);
  }

  method PutOctets(data: array<byte>, b: nat)
    requires data.Length == 64
    modifies data
    ensures data[..56] == old(data[..56]) && data[56..] == Octets64(b)
  {
    data[63] := Octet(b);
    data[62] := Octet(b / 0x100);
    data[61] := Octet(b / 0x1_0000);
    data[60] := Octet(b / 0x100_0000);
    data[59] := Octet(b / 0x1_0000_0000);
    data[58] := Octet(b / 0x100_0000_0000);
    data[57] := Octet(b / 0x1_0000_0000_0000);
    data[56] := Octet(b / 0x100_0000_0000_0000);
  }

  lemma Halves(bits: nat)
    ensures var b := bits % 0x1_0000_0000_0000_0000;
      bits / 0x1_0000_0000 % 0x1_0000_0000 == b / 0x1_0000_0000 && bits % 0x1_0000_0000 == b % 0x1_0000_0000
  {
    var b: nat, q: nat := bits % 0x1_0000_0000_0000_0000, bits / 0x1_0000_0000_0000_0000;
    var high: nat, low: nat := b / 0x1_0000_0000, b % 0x1_0000_0000;
    var top: nat := q * 0x1_0000_0000 + high;
    assert bits == top * 0x1_0000_0000 + low;
  }

  lemma HighBytes(b: nat, high: nat, low: nat)
    requires b == high * 0x1_0000_0000 + low && low < 0x1_0000_0000
    ensures b / 0x100_0000_0000_0000 == high / 0x100_0000 && b / 0x1_0000_0000_0000 == high / 0x1_0000
    ensures b / 0x100_0000_0000 == high / 0x100 && b / 0x1_0000_0000 == high
  {
  }

  lemma LowBytes(b: nat, high: nat, low: nat)
    requires b == high * 0x1_0000_0000 + low
    ensures Octet(b / 0x100_0000) == Octet(low / 0x100_0000) && Octet(b / 0x1_0000) == Octet(low / 0x1_0000)
    ensures Octet(b / 0x100) == Octet(low / 0x100) && Octet(b) == Octet(low)
  {
    LowByte(b / 0x100_0000, high, low / 0x100_0000);
    LowByte(b / 0x1_0000, 256 * high, low / 0x1_0000);
    LowByte(b / 0x100, 0x1_0000 * high, low / 0x100);
    LowByte(b, 0x100_0000 * high, low);
  }

  lemma LowByte(x: nat, y: nat, z: nat)
    requires x == 256 * y + z
    ensures Octet(x) == Octet(z)
  {
  }

  /** The padding when the length still fits behind the rest of the message. */
  lemma PaddedShort(msg: seq<byte>, head: seq<byte>)
    requires |msg| % 64 < 56 && head == Rest(msg) + [0x80] + Zeros(55 - |msg| % 64)
    ensures |head| == 56 && Padded(msg) == Whole(msg) + (head + LengthField(8 * |msg|))
  {
    WholeAndRest(msg);
  }

  /** The padding when the length needs a block of its own. */
  lemma PaddedLong(msg: seq<byte>, block: seq<byte>, head: seq<byte>)
    requires |msg| % 64 >= 56 && block == Rest(msg) + [0x80] + Zeros(63 - |msg| % 64) && head == Zeros(56)
    ensures |block| == 64 && Padded(msg) == Whole(msg) + block + (head + LengthField(8 * |msg|))
  {
    WholeAndRest(msg);
    assert Zeros(63 - |msg| % 64) + Zeros(56) == Zeros(ZeroCount(|msg|));
  }

  type Words = w: seq<seq<byte>> | |w| == 8 && forall j :: 0 <= j < 8 ==> |w[j]| == 4 witness seq(8, _ => [0, 0, 0, 0])

  function WordsOf(h: Regs): Words {
    [WordBytes(h.a), WordBytes(h.b), WordBytes(h.c), WordBytes(h.d),
     WordBytes(h.e), WordBytes(h.f), WordBytes(h.g), WordBytes(h.h)]
  }

  /** Byte `c` of every word is where it belongs in the digest. */
  ghost predicate Column(digest: seq<byte>, w: Words, c: nat)
    requires |digest| == 32 && c < 4
  {
    && digest[c] == w[0][c] && digest[4 + c] == w[1][c] && digest[8 + c] == w[2][c] && digest[12 + c] == w[3][c]
    && digest[16 + c] == w[4][c] && digest[20 + c] == w[5][c] && digest[24 + c] == w[6][c] && digest[28 + c] == w[7][c]
  }

  /** The loop that writes byte `i` of all eight words writes the words one after the other. */
  lemma FourColumns(digest: seq<byte>, w: Words)
    requires |digest| == 32
    requires Column(digest, w, 0) && Column(digest, w, 1) && Column(digest, w, 2) && Column(digest, w, 3)
    ensures digest == w[0] + w[1] + w[2] + w[3] + w[4] + w[5] + w[6] + w[7]
  {
    assert digest[..4] == w[0] && digest[4..8] == w[1] && digest[8..12] == w[2] && digest[12..16] == w[3];
    assert digest[16..20] == w[4] && digest[20..24] == w[5] && digest[24..28] == w[6] && digest[28..] == w[7];
    EightParts(digest);
  }

  lemma EightParts(d: seq<byte>)
    requires |d| == 32
    ensures d == d[..4] + d[4..8] + d[8..12] + d[12..16] + d[16..20] + d[20..24] + d[24..28] + d[28..]
  {
  }

  method WriteColumn(w: Words, hash: array<byte>, i: nat)
    requires hash.Length == 32 && i < 4
    modifies hash
    ensures Column(hash[..], w, i)
    ensures forall k :: 0 <= k < 32 && k % 4 != i ==> hash[k] == old(hash[k])
  {
    hash[i] := w[0][i];
    hash[i + 4] := w[1][i];
    hash[i + 8] := w[2][i];
    hash[i + 12] := w[3][i];
    hash[i + 16] := w[4][i];
    hash[i + 20] := w[5][i];
    hash[i + 24] := w[6][i];
    hash[i + 28] := w[7][i];
  }

  lemma ColumnKept(before: seq<byte>, after: seq<byte>, w: Words, c: nat, i: nat)
    requires |before| == |after| == 32 && c < 4 && i < 4 && c != i && Column(before, w, c)
    requires forall k :: 0 <= k < 32 && k % 4 != i ==> after[k] == before[k]
    ensures Column(after, w, c)
  {
  }

  method WriteWords(w: Words, hash: array<byte>)
    requires hash.Length == 32
    modifies hash
    ensures hash[..] == w[0] + w[1] + w[2] + w[3] + w[4] + w[5] + w[6] + w[7]
  {
    var i := 0;
    while i < 4
      invariant 0 <= i <= 4
      invariant forall c {:trigger Column(hash[..], w, c)} :: 0 <= c < i ==> Column(hash[..], w, c)
    {
      ghost var before := hash[..];
      WriteColumn(w, hash, i);
      forall c | 0 <= c < i ensures Column(hash[..], w, c) {
        ColumnKept(before, hash[..], w, c, i);
      }
      i := i + 1;
    }
    FourColumns(hash[..], w);
  }

  method WriteDigest(state: array<bv32>, hash: array<byte>)
    requires state.Length == 8 && hash.Length == 32
    modifies hash
    ensures hash[..] == DigestBytes(RegsOf(state))
  {
    var w := WordsOf(RegsOf(state));
    WriteWords(w, hash);
  }

  lemma Regroup(a: seq<byte>, b: seq<byte>, c: seq<byte>)
    ensures a + b + c == a + (b + c)
  {
  }

  lemma AddOne(msg: seq<byte>, b: byte)
    ensures |msg| % 64 == 63 ==> Whole(msg + [b]) == Whole(msg) + (Rest(msg) + [b]) && Rest(msg + [b]) == []
    ensures |msg| % 64 < 63 ==> Whole(msg + [b]) == Whole(msg) && Rest(msg + [b]) == Rest(msg) + [b]
  {
    WholeAndRest(msg);
    assert msg + [b] == Whole(msg) + (Rest(msg) + [b]);
    if |msg| % 64 == 63 {
      assert Whole(msg) + (Rest(msg) + [b]) + [] == msg + [b];
      SplitWhole(msg + [b], Whole(msg) + (Rest(msg) + [b]), []);
    } else {
      SplitWhole(msg + [b], Whole(msg), Rest(msg) + [b]);
    }
  }

  /** The whole blocks of `msg` are compressed to `h` and the rest of it waits in the buffer. */
  ghost predicate Buffered(h: Regs, buffer: seq<byte>, msg: seq<byte>)
    requires |buffer| == 64
  {
    Hashed(h, Whole(msg)) && buffer[..|msg| % 64] == Rest(msg)
  }

  /** The counter of the loop of `update`, which has 32 bits, after `n` rounds. */
  function Counter(n: nat): (i: nat)
    ensures n < 0x1_0000_0000 ==> i == n
  {
    if n == 0 then 0 else (Counter(n - 1) + 1) % 0x1_0000_0000
  }

  lemma {:induction false} CounterWraps(n: nat)
    ensures Counter(n) < 0x1_0000_0000
  {
  }

  /** `n` rounds of the loop over `len` bytes can be made. */
  ghost predicate Within(len: nat, n: nat) {
    n > 0 ==> Within(len, n - 1) && Counter(n - 1) < len
  }

  /** The counter reaches `len`, and that after `len` rounds, exactly when `len` is below 2^32. */
  lemma {:induction false} ReachesEnd(len: nat, n: nat)
    requires Within(len, n)
    ensures Counter(n) >= len <==> len < 0x1_0000_0000 && n == len
    ensures len < 0x1_0000_0000 ==> n <= len
  {
    CounterWraps(n);
    if n > 0 {
      ReachesEnd(len, n - 1);
    }
  }

  /** The bytes read in the first `n` rounds. */
  ghost function Read(bytes: seq<byte>, n: nat): (r: seq<byte>)
    requires Within(|bytes|, n)
  {
    if n == 0 then [] else Read(bytes, n - 1) + [bytes[Counter(n - 1)]]
  }

  lemma {:induction false} ReadIsPrefix(bytes: seq<byte>, n: nat)
    requires Within(|bytes|, n) && n <= |bytes| < 0x1_0000_0000
    ensures Read(bytes, n) == bytes[..n]
  {
    if n > 0 {
      ReadIsPrefix(bytes, n - 1);
    }
  }

  /** With `len` below 2^32 exactly the rounds up to `len` can be made, and otherwise any number. */
  lemma {:induction false} WithinIff(len: nat, n: nat)
    ensures Within(len, n) <==> n <= len || len >= 0x1_0000_0000
  {
    if n > 0 {
      WithinIff(len, n - 1);
      CounterWraps(n - 1);
      if Within(len, n - 1) {
        ReachesEnd(len, n - 1);
      }
    }
  }

  /** The loop ends after some number of rounds exactly when `len` is below 2^32. */
  lemma CounterReaches(len: nat)
    ensures (exists n: nat :: Within(len, n) && Counter(n) >= len) <==> len < 0x1_0000_0000
  {
    WithinIff(len, len);
    forall n: nat | Within(len, n) ensures Counter(n) >= len ==> len < 0x1_0000_0000 {
      ReachesEnd(len, n);
    }
    assert len < 0x1_0000_0000 ==> Within(len, len) && Counter(len) >= len;
  }

  class Sha256Context {
    const data: array<byte>
    const state: array<bv32>
    var datalen: nat
    var bitlen: nat

    /** The message so far. */
    ghost var seen: seq<byte>

    predicate Shaped() {
      state.Length == 8 && data.Length == 64
    }

    ghost predicate Valid()
      reads this, state, data
    {
      Shaped() && Buffered(RegsOf(state), data[..], seen) && datalen == |seen| % 64 && BitsOfBlocks(bitlen, |seen|)
    }

    /** `init` */
    method Init()
      requires Shaped()
      modifies this, state
      ensures Valid() && seen == []
    {
      datalen, bitlen := 0, 0;
      SetStart(state);
      seen := [];
      HashedEmpty();
    }

    constructor ()
      ensures Valid() && seen == [] && fresh(state) && fresh(data)
    {
      state := new bv32[8];
      data := new byte[64];
      new;
      Init();
    }

    /** Stores one byte of the message, behind which the buffer may be full. */
    method StoreByte(b: byte)
      requires Valid()
      modifies `datalen, data
      ensures datalen == |seen| % 64 + 1 && data[..datalen] == Rest(seen) + [b]
    {
      data[datalen] := b;
      datalen := datalen + 1;
    }

    /** Compresses the buffer that the byte `b` has filled. */
    method FullBlock(ghost before: seq<byte>, ghost b: byte, ghost after: seq<byte>)
      requires after == before + [b]
      requires Shaped() && Hashed(RegsOf(state), Whole(before))
      requires |before| % 64 == 63 && data[..64] == Rest(before) + [b]
      modifies state
      ensures Buffered(RegsOf(state), data[..], after)
    {
      AddOne(before, b);
      assert data[..] == data[..64];
      Modulo(|before| + 1, |before| / 64 + 1, 0);
      Absorb(state, data[..], Whole(before));
    }

    /** The full buffer is compressed and counted. */
    method Flush(ghost before: seq<byte>, ghost b: byte)
      requires Shaped() && seen == before + [b] && BitsOfBlocks(bitlen, |before|)
      requires Hashed(RegsOf(state), Whole(before)) && |before| % 64 == 63 && data[..64] == Rest(before) + [b]
      modifies `bitlen, `datalen, state
      ensures Valid()
    {
      BitsGrow(bitlen, |before|, |seen|);
      FullBlock(before, b, seen);
      bitlen := (bitlen + 512) % 0x1_0000_0000_0000_0000;
      datalen := 0;
    }

    /** One round of the loop of `update`. */
    method UpdateByte(b: byte, ghost after: seq<byte>)
      requires Valid() && after == seen + [b]
      modifies this, state, data
      ensures Valid() && seen == after
    {
      AddOne(seen, b);
      StoreByte(b);
      if datalen != 64 {
        BitsKept(bitlen, |seen|, |after|);
        seen := after;
      } else {
        ghost var before := seen;
        seen := after;
        Flush(before, b);
      }
    }

    /** Round `n` of the loop of `update`. */
    method UpdateRound(bytes: seq<byte>, i: nat, ghost n: nat, ghost before: seq<byte>) returns (next: nat)
      requires Valid() && Within(|bytes|, n) && i == Counter(n) < |bytes| && seen == before + Read(bytes, n)
      modifies this, state, data
      ensures Valid() && Within(|bytes|, n + 1) && next == Counter(n + 1) && seen == before + Read(bytes, n + 1)
    {
      Regroup(before, Read(bytes, n), [bytes[i]]);
      UpdateByte(bytes[i], before + Read(bytes, n + 1));
      next := (i + 1) % 0x1_0000_0000;
    }

    /** The loop of `update`, for `rounds` rounds or until it ends. */
    method Loop(bytes: seq<byte>, rounds: nat) returns (i: nat, ghost n: nat)
      requires Valid()
      modifies this, state, data
      ensures Valid() && n <= rounds && Within(|bytes|, n) && i == Counter(n)
      ensures i < |bytes| ==> n == rounds
      ensures seen == old(seen) + Read(bytes, n)
    {
      ghost var before := seen;
      var left := rounds;
      i, n := 0, 0;
      while i < |bytes| && left > 0
        invariant n + left == rounds && i == Counter(n) && Within(|bytes|, n)
        invariant Valid() && seen == before + Read(bytes, n)
        decreases left
      {
        i := UpdateRound(bytes, i, n, before);
        n, left := n + 1, left - 1;
      }
    }

    /** The first `rounds` rounds of the loop of `update`, or all of them. On 2^32 bytes or more no number
        of rounds ends the loop: it reads the first 2^32 bytes again and again. */
    method Update(bytes: seq<byte>, rounds: nat) returns (ended: bool)
      requires Valid()
      modifies this, state, data
      ensures ended <==> |bytes| < 0x1_0000_0000 && |bytes| <= rounds
      ensures Valid()
      ensures ended ==> seen == old(seen) + bytes
      ensures !ended ==> Within(|bytes|, rounds) && seen == old(seen) + Read(bytes, rounds)
    {
      var i;
      ghost var n;
      i, n := Loop(bytes, rounds);
      ended := i >= |bytes|;
      ReachesEnd(|bytes|, n);
      if ended {
        ReadIsPrefix(bytes, n);
      }
    }

    /** Writes the byte 0x80 behind the message and zero bytes up to `limit`. */
    method PadTo(limit: nat)
      requires Shaped() && datalen < limit <= 64
      modifies data
      ensures data[..limit] == old(data[..datalen]) + [0x80] + Zeros(limit - 1 - datalen)
    {
      var i := datalen;
      data[i] := 0x80;
      i := i + 1;
      while i < limit
        invariant datalen < i <= limit
        invariant data[..i] == old(data[..datalen]) + [0x80] + Zeros(i - 1 - datalen)
      {
        data[i] := 0x00;
        i := i + 1;
      }
    }

    /** Pads the buffer, compressing it when the length needs a block of its own. `whole` is what is
        compressed afterwards. */
    method PadBuffer() returns (ghost whole: seq<byte>)
      requires Valid()
      modifies data, state
      ensures Hashed(RegsOf(state), whole) && Padded(seen) == whole + (data[..56] + LengthField(8 * |seen|))
    {
      if datalen < 56 {
        PadTo(56);
        PaddedShort(seen, data[..56]);
        whole := Whole(seen);
      } else {
        PadTo(64);
        ghost var block := data[..64];
        PaddedLong(seen, block, Zeros(56));
        assert data[..] == data[..64];
        Absorb(state, data[..], Whole(seen));
        forall k | 0 <= k < 56 { data[k] := 0; }
        assert data[..56] == Zeros(56);
        whole := Whole(seen) + block;
      }
    }

    /** Adds the waiting bits to the counter and writes it behind the padding. */
    method PutLength()
      requires Shaped() && datalen == |seen| % 64 && BitsOfBlocks(bitlen, |seen|)
      modifies `bitlen, data
      ensures data[..56] == old(data[..56]) && data[56..] == LengthField(8 * |seen|)
      ensures bitlen == 8 * |seen| % 0x1_0000_0000_0000_0000
    {
      BitsOfAll(bitlen, |seen|);
      bitlen := (bitlen + datalen * 8) % 0x1_0000_0000_0000_0000;
      FieldBytes(8 * |seen|, bitlen);
      PutOctets(data, bitlen);
    }

    /** `final`: the digest of the message. The context is spent afterwards. */
    method Final(hash: array<byte>)
      requires Valid() && hash.Length == 32 && hash != data
      modifies this, data, state, hash
      ensures hash[..] == Hash(old(seen)) && seen == old(seen)
      ensures RegsOf(state) == HashFrom(K, Start(), Padded(seen))
    {
      ghost var whole := PadBuffer();
      PutLength();
      assert data[..] == data[..56] + data[56..];
      Absorb(state, data[..], whole);
      WriteDigest(state, hash);
    }
  }

  /** The calls of `update` for the first `n` pieces end. */
  ghost predicate AllEnd(pieces: seq<seq<byte>>, n: nat, rounds: nat)
    requires n <= |pieces|
  {
    n > 0 ==> AllEnd(pieces, n - 1, rounds) && |pieces[n - 1]| < 0x1_0000_0000 && |pieces[n - 1]| <= rounds
  }

  lemma FewerEnd(pieces: seq<seq<byte>>, k: nat, n: nat, rounds: nat)
    requires k <= n <= |pieces| && AllEnd(pieces, n, rounds)
    ensures AllEnd(pieces, k, rounds)
    decreases n
  {
    if k < n {
      FewerEnd(pieces, k, n - 1, rounds);
    }
  }

  /** Piece `k`, after those before it. */
  method Feed(context: Sha256Context, pieces: seq<seq<byte>>, k: nat, rounds: nat) returns (ended: bool)
    requires k < |pieces| && context.Valid() && context.seen == Concat(pieces[..k])
    modifies context, context.state, context.data
    ensures AllEnd(pieces, k, rounds) ==> ended == AllEnd(pieces, k + 1, rounds)
    ensures ended ==> context.Valid() && context.seen == Concat(pieces[..k + 1])
  {
    OneMore(pieces, k);
    ended := context.Update(pieces[k], rounds);
  }

  method Digest(context: Sha256Context) returns (digest: seq<byte>)
    requires context.Valid()
    modifies context, context.state, context.data
    ensures digest == Hash(old(context.seen))
  {
    var out := new byte[32];
    context.Final(out);
    digest := out[..];
  }

  /** However a message is cut into pieces, its digest is the one of FIPS 180-4, if all calls of `update`
      end. `rounds` is what each of them may take. */
  method HashPieces(pieces: seq<seq<byte>>, rounds: nat) returns (digest: Option<seq<byte>>)
    ensures digest == if AllEnd(pieces, |pieces|, rounds) then Some(Hash(Concat(pieces))) else None
  {
    var context := new Sha256Context();
    var k, ended := 0, true;
    while k < |pieces| && ended
      invariant 0 <= k <= |pieces| && fresh(context) && fresh(context.state) && fresh(context.data)
      invariant ended ==> context.Valid() && context.seen == Concat(pieces[..k])
      invariant ended == AllEnd(pieces, k, rounds)
    {
      ended := Feed(context, pieces, k, rounds);
      k := k + 1;
    }
    if !ended {
      assert !AllEnd(pieces, |pieces|, rounds) by {
        if AllEnd(pieces, |pieces|, rounds) { FewerEnd(pieces, k, |pieces|, rounds); }
      }
      return None;
    }
    assert pieces[..k] == pieces;
    var all := Digest(context);
    digest := Some(all);
  }
}
