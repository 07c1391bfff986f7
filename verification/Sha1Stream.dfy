/** `SHA1_CTX`: a message arrives in pieces of any length; 64-byte blocks are compressed as they fill
    up, and the length is counted in two 32-bit words. */
module Sha1Stream {
  import opened Basics
  import opened ShaMessage
  import opened Sha1Spec
  import opened Sha1

  /** The two counters hold the number of bits of a message of `n` bytes, modulo 2^64. */
  ghost predicate Counts(low: nat, high: nat, n: nat) {
    low < 0x1_0000_0000 && high < 0x1_0000_0000 && high * 0x1_0000_0000 + low == 8 * n % 0x1_0000_0000_0000_0000
  }

  lemma Carry(low: nat, x: nat)
    requires low < 0x1_0000_0000 && x < 0x1_0000_0000
    ensures var low' := (low + x) % 0x1_0000_0000;
      low + x == low' + (if low' < low then 0x1_0000_0000 else 0)
  {
    if low + x >= 0x1_0000_0000 {
      assert (low + x) % 0x1_0000_0000 == low + x - 0x1_0000_0000;
    }
  }

  /** The carry test and the two shifts of `update` add eight times `len`. */
  lemma CountsAdd(low: nat, high: nat, n: nat, len: nat)
    requires Counts(low, high, n) && len < 0x1_0000_0000
    ensures var low' := (low + len * 8 % 0x1_0000_0000) % 0x1_0000_0000;
      var carried := if low' < low then (high + 1) % 0x1_0000_0000 else high;
      Counts(low', (carried + len / 0x2000_0000) % 0x1_0000_0000, n + len)
  {
    var y: nat := len / 0x2000_0000;
    var x: nat := 8 * (len - y * 0x2000_0000);
    assert len * 8 == y * 0x1_0000_0000 + x && x < 0x1_0000_0000;
    assert len * 8 % 0x1_0000_0000 == x;
    Carry(low, x);
    var low': nat := (low + x) % 0x1_0000_0000;
    var carry: nat := if low' < low then 1 else 0;
    CarriedHigh(high + carry + y, low', 8 * n / 0x1_0000_0000_0000_0000, n + len);
    HighTwice(high, carry, y);
  }

  lemma HighTwice(high: nat, carry: nat, y: nat)
    requires high < 0x1_0000_0000 && carry <= 1
    ensures (high + carry + y) % 0x1_0000_0000 == ((high + carry) % 0x1_0000_0000 + y) % 0x1_0000_0000
  {
    if high + carry == 0x1_0000_0000 {
      assert (0x1_0000_0000 + y) % 0x1_0000_0000 == y % 0x1_0000_0000;
    }
  }

  lemma CarriedHigh(h: nat, low: nat, q: nat, n: nat)
    requires low < 0x1_0000_0000 && 8 * n == q * 0x1_0000_0000_0000_0000 + h * 0x1_0000_0000 + low
    ensures Counts(low, h % 0x1_0000_0000, n)
  {
    var k: nat := h / 0x1_0000_0000;
    Remainder(8 * n, q + k, h % 0x1_0000_0000 * 0x1_0000_0000 + low);
  }

  lemma Remainder(x: nat, q: nat, r: nat)
    requires x == q * 0x1_0000_0000_0000_0000 + r && r < 0x1_0000_0000_0000_0000
    ensures x % 0x1_0000_0000_0000_0000 == r
  {
  }

  /** The number of bytes waiting in the buffer, read off the low counter. */
  lemma Waiting(low: nat, high: nat, n: nat)
    requires Counts(low, high, n)
    ensures low / 8 % 64 == n % 64
  {
    var q: nat := 8 * n / 0x1_0000_0000_0000_0000;
    var z: nat := q * 0x80_0000_0000_0000 + high * 0x80_0000;
    assert 8 * n == 512 * z + low;
    assert n == 64 * z + low / 8;
    Modulo(n, z + low / 8 / 64, low / 8 % 64);
  }

  /** The bytes of the two counters are the length field. */
  lemma CountsAreField(low: nat, high: nat, n: nat)
    requires Counts(low, high, n)
    ensures Octets32(high) + Octets32(low) == LengthField(8 * n)
  {
    CountsAreHalves(low, high, n);
  }

  lemma CountsAreHalves(low: nat, high: nat, n: nat)
    requires Counts(low, high, n)
    ensures 8 * n / 0x1_0000_0000 % 0x1_0000_0000 == high && 8 * n % 0x1_0000_0000 == low
  {
    var q: nat := 8 * n / 0x1_0000_0000_0000_0000;
    var top: nat := q * 0x1_0000_0000 + high;
    assert 8 * n == top * 0x1_0000_0000 + low;
  }

  lemma CutAt(seen: seq<byte>, data: seq<byte>, i: nat, none: seq<byte>)
    requires i <= |data| && none == []
    ensures seen + data == seen + data[..i] + none + data[i..]
  {
  }

  /** The low counter asks for another zero byte exactly while one is missing. */
  lemma PaddingGoesOn(n: nat, zeros: nat, m: nat)
    requires zeros <= ZeroCount(n) && m == n + 1 + zeros
    ensures m % 64 != 56 <==> zeros < ZeroCount(n)
  {
    ZeroCountIsLeast(n, zeros);
  }

  lemma ZerosGrow(start: seq<byte>, n: nat)
    ensures start + Zeros(n) + [0] == start + Zeros(n + 1) && start + Zeros(0) == start
  {
  }

  /** The hash value after the whole blocks `msg`. */
  ghost predicate Hashed(h: Regs, msg: seq<byte>) {
    |msg| % 64 == 0 && h == HashFrom(INITIAL, msg)
  }

  lemma HashedEmpty()
    ensures Hashed(INITIAL, [])
  {
  }

  /** One more block. */
  method Absorb(state: array<bv32>, block: Block, ghost msg: seq<byte>)
    requires state.Length == 5 && Hashed(RegsOf(state), msg)
    modifies state
    ensures Hashed(RegsOf(state), msg + block)
  {
    HashFromBlock(INITIAL, msg, block);
    Transform(state, block);
  }

  /** The loop that writes byte `i % 4` of word `i / 4` writes the words one after the other. */
  lemma FiveWords(words: seq<seq<byte>>, digest: seq<byte>)
    requires |words| == 5 && forall j :: 0 <= j < 5 ==> |words[j]| == 4
    requires |digest| == 20 && forall k :: 0 <= k < 20 ==> digest[k] == words[k / 4][k % 4]
    ensures digest == words[0] + words[1] + words[2] + words[3] + words[4]
  {
  }

  method WriteDigest(state: array<bv32>, digest: array<byte>)
    requires state.Length == 5 && digest.Length == 20
    modifies digest
    ensures digest[..] == DigestBytes(RegsOf(state))
  {
    ghost var words := [WordBytes(state[0]), WordBytes(state[1]), WordBytes(state[2]),
                        WordBytes(state[3]), WordBytes(state[4])];
    var i := 0;
    while i < 20
      invariant 0 <= i <= 20
      invariant forall k :: 0 <= k < i ==> digest[k] == words[k / 4][k % 4]
    {
      digest[i] := WordBytes(state[i / 4])[i % 4];
      i := i + 1;
    }
    FiveWords(words, digest[..]);
  }

  /** The whole blocks of `msg` are compressed to `h` and the rest of it waits in the buffer. */
  ghost predicate Buffered(h: Regs, buffer: seq<byte>, msg: seq<byte>)
    requires |buffer| == 64
  {
    Hashed(h, Whole(msg)) && buffer[..|msg| % 64] == Rest(msg)
  }

  lemma NextBlock(before: seq<byte>, data: seq<byte>, i: nat)
    requires i + 64 <= |data|
    ensures before + data[..i] + data[i..i + 64] == before + data[..i + 64]
  {
  }

  /** The test of the loop over the blocks does not wrap around. */
  lemma NextEnd(i: nat, n: nat, first: nat, len: nat)
    requires i == first + 64 * n && first <= 64 && i <= len && 64 - first + len < 0x1_0000_0000
    ensures (i + 63) % 0x1_0000_0000 == i + 63
  {
  }

  /** The test of `update` adds in 32 bits. It takes the branch that completes no block although `len`
      bytes do not fit behind the `j` waiting ones exactly when the sum wraps around. */
  lemma SumWraps(j: nat, len: nat)
    requires j < 64 && len < 0x1_0000_0000
    ensures (j + len) % 0x1_0000_0000 <= 63 && j + len > 64 <==> j + len >= 0x1_0000_0000
    ensures (j + len) % 0x1_0000_0000 > 63 <==> 63 < j + len < 0x1_0000_0000
  {
    if j + len >= 0x1_0000_0000 {
      assert (j + len) % 0x1_0000_0000 == j + len - 0x1_0000_0000;
    }
  }

  class Sha1Context {
    const state: array<bv32>
    const buffer: array<byte>
    var count0: nat
    var count1: nat

    /** The message so far. */
    ghost var seen: seq<byte>

    predicate Shaped() {
      state.Length == 5 && buffer.Length == 64
    }

    ghost predicate Valid()
      reads this, state, buffer
    {
      && Shaped()
      && Buffered(RegsOf(state), buffer[..], seen)
      && Counts(count0, count1, |seen|)
    }

    constructor ()
      ensures Valid() && seen == [] && fresh(state) && fresh(buffer)
    {
      state := new bv32[5];
      buffer := new byte[64];
      new;
      Init();
    }

    /** `init` */
    method Init()
      requires Shaped()
      modifies this, state
      ensures Valid() && seen == []
    {
      state[0] := 0x67452301;
      state[1] := 0xEFCDAB89;
      state[2] := 0x98BADCFE;
      state[3] := 0x10325476;
      state[4] := 0xC3D2E1F0;
      count0, count1 := 0, 0;
      seen := [];
      HashedEmpty();
    }

    /** The whole blocks of `data` that follow a filled buffer, from byte `first` on. The counter `i`
        has 32 bits. */
    method WholeBlocks(data: seq<byte>, first: nat, ghost before: seq<byte>) returns (i: nat)
      requires Shaped() && 0 < first <= 64 && first <= |data| && 64 - first + |data| < 0x1_0000_0000
      requires Hashed(RegsOf(state), before + data[..first])
      modifies state
      ensures first <= i <= |data| < i + 64
      ensures Hashed(RegsOf(state), before + data[..i])
    {
      i := first;
      ghost var n: nat := 0;
      while (i + 63) % 0x1_0000_0000 < |data|
        invariant i == first + 64 * n && i <= |data|
        invariant Hashed(RegsOf(state), before + data[..i])
        decreases |data| - i
      {
        NextEnd(i, n, first, |data|);
        NextBlock(before, data, i);
        Absorb(state, data[i..i + 64], before + data[..i]);
        i, n := i + 64, n + 1;
      }
      NextEnd(i, n, first, |data|);
    }

    /** The new values of the counters. */
    method Count(len: nat, ghost total: nat) returns (j: nat)
      requires Counts(count0, count1, |seen|) && len < 0x1_0000_0000 && total == |seen| + len
      modifies `count0, `count1
      ensures Counts(count0, count1, total) && j == |seen| % 64
    {
      Waiting(count0, count1, |seen|);
      CountsAdd(count0, count1, |seen|, len);
      j := count0;
      count0 := (count0 + len * 8 % 0x1_0000_0000) % 0x1_0000_0000;
      if count0 < j {
        count1 := (count1 + 1) % 0x1_0000_0000;
      }
      count1 := (count1 + len / 0x2000_0000) % 0x1_0000_0000;
      j := j / 8 % 64;
    }

    /** Completes the block in the buffer, which holds `j` bytes, and compresses it. */
    method FirstBlock(data: seq<byte>, j: nat, ghost before: seq<byte>) returns (i: nat)
      requires Shaped() && j == |before| % 64 && j + |data| > 63
      requires Buffered(RegsOf(state), buffer[..], before)
      modifies state, buffer
      ensures i == 64 - j && Hashed(RegsOf(state), before + data[..i])
    {
      i := 64 - j;
      Copy(buffer, j, data[..i]);
      assert buffer[..] == Rest(before) + data[..i];
      assert Whole(before) + buffer[..] == before + data[..i] by { WholeAndRest(before); }
      Absorb(state, buffer[..], Whole(before));
    }

    /** Stores a piece shorter than what is left of the buffer. */
    method Store(piece: seq<byte>, j: nat, ghost whole: seq<byte>, ghost all: seq<byte>)
      requires Shaped() && j + |piece| < 64
      requires all == whole + buffer[..j] + piece && Hashed(RegsOf(state), whole)
      modifies buffer
      ensures Buffered(RegsOf(state), buffer[..], all)
    {
      ghost var rest := buffer[..j];
      Copy(buffer, j, piece);
      assert whole + rest + piece == whole + (rest + piece);
      SplitWhole(all, whole, rest + piece);
    }

    /** The branch of `update` that completes at least one block. */
    method Blocks(data: seq<byte>, j: nat, ghost before: seq<byte>)
      requires Shaped() && Buffered(RegsOf(state), buffer[..], before)
      requires j == |before| % 64 && 63 < j + |data| < 0x1_0000_0000
      modifies state, buffer
      ensures Buffered(RegsOf(state), buffer[..], before + data)
    {
      var i := FirstBlock(data, j, before);
      i := WholeBlocks(data, i, before);
      CutAt(before, data, i, buffer[..0]);
      Store(data[i..], 0, before + data[..i], before + data);
    }

    /** The other branch, which only stores. */
    method Wait(data: seq<byte>, j: nat, ghost before: seq<byte>)
      requires Shaped() && Buffered(RegsOf(state), buffer[..], before) && j == |before| % 64 && j + |data| < 64
      modifies buffer
      ensures Buffered(RegsOf(state), buffer[..], before + data)
    {
      WholeAndRest(before);
      Store(data, j, Whole(before), before + data);
    }

    /** The copying and compressing of `update`. `fits` is false where the bytes to be copied go past the
        end of the buffer. */
    method Take(data: seq<byte>, j: nat, ghost before: seq<byte>, ghost after: seq<byte>) returns (fits: bool)
      requires after == before + data
      requires Shaped() && Buffered(RegsOf(state), buffer[..], before)
      requires j == |before| % 64 && |data| < 0x1_0000_0000
      modifies state, buffer
      ensures fits <==> j + |data| < 0x1_0000_0000
      ensures fits ==> Buffered(RegsOf(state), buffer[..], after)
      ensures !fits ==> state[..] == old(state[..]) && buffer[..] == old(buffer[..])
    {
      SumWraps(j, |data|);
      if (j + |data|) % 0x1_0000_0000 > 63 {
        Blocks(data, j, before);
        fits := true;
      } else if j + |data| <= 64 {
        Wait(data, j, before);
        fits := true;
      } else {
        fits := false;
      }
    }

    /** `update`. Its test whether the buffer fills up adds in 32 bits. Where the sum wraps around, the
        bytes do not fit into the buffer: the model stops before copying them, with the counters moved. */
    method Update(data: seq<byte>) returns (fits: bool)
      requires Valid() && |data| < 0x1_0000_0000
      modifies this, state, buffer
      ensures fits <==> old(|seen|) % 64 + |data| < 0x1_0000_0000
      ensures fits ==> Valid() && seen == old(seen) + data
      ensures !fits ==> state[..] == old(state[..]) && buffer[..] == old(buffer[..]) && seen == old(seen)
      ensures Counts(count0, count1, |old(seen) + data|)
    {
      ghost var before := seen;
      ghost var after := before + data;
      var j := Count(|data|, |after|);
      fits := Take(data, j, before, after);
      if fits {
        seen := after;
      }
    }

    /** `finalcount`: the counters as they are before the padding is added. */
    method FinalCount() returns (bytes: seq<byte>)
      requires Counts(count0, count1, |seen|)
      ensures bytes == LengthField(8 * |seen|)
    {
      CountsAreField(count0, count1, |seen|);
      bytes := [];
      var i := 0;
      while i < 8
        invariant i <= 8 && |bytes| == i
        invariant forall k :: 0 <= k < i ==>
          bytes[k] == (if k < 4 then Octets32(count1)[k] else Octets32(count0)[k - 4])
      {
        var word := if i >= 4 then count0 else count1;
        bytes := bytes + [Octets32(word)[i % 4]];
        i := i + 1;
      }
    }

    /** One more byte of padding. */
    method AddByte(b: byte, ghost after: seq<byte>)
      requires Valid() && after == seen + [b]
      modifies this, state, buffer
      ensures Valid() && seen == after && count0 / 8 % 64 == |after| % 64
    {
      var fits := Update([b]);
      Waiting(count0, count1, |seen|);
    }

    /** The single byte 0x80 and the zero bytes, one call of `update` each. */
    method AddPadding()
      requires Valid()
      modifies this, state, buffer
      ensures Valid() && seen == old(seen) + [0x80] + Zeros(ZeroCount(old(|seen|)))
    {
      ghost var n, start, zeros := |seen|, seen + [0x80], 0;
      AddByte(0x80, start);
      ZerosGrow(start, 0);
      while count0 / 8 % 64 != 56
        invariant Valid() && seen == start + Zeros(zeros) && zeros <= ZeroCount(n)
        invariant |seen| == n + 1 + zeros && count0 / 8 % 64 == |seen| % 64
        decreases ZeroCount(n) - zeros
      {
        PaddingGoesOn(n, zeros, |seen|);
        ZerosGrow(start, zeros);
        AddByte(0, start + Zeros(zeros + 1));
        zeros := zeros + 1;
      }
      PaddingGoesOn(n, zeros, |seen|);
    }

    /** `final`: the digest of the message, after which the context is wiped. */
    method Final(digest: array<byte>)
      requires Valid() && digest.Length == 20 && digest != buffer
      modifies this, state, buffer, digest
      ensures digest[..] == Hash(old(seen))
      ensures count0 == count1 == 0 && state[..] == [0, 0, 0, 0, 0] && buffer[..] == Zeros(64)
    {
      ghost var message := seen;
      var bytes := FinalCount();
      AddPadding();
      var fits := Update(bytes);
      assert seen == Padded(message) && Whole(seen) == seen;
      WriteDigest(state, digest);
      Wipe();
    }

    method Wipe()
      requires Shaped()
      modifies this, state, buffer
      ensures count0 == count1 == 0 && state[..] == [0, 0, 0, 0, 0] && buffer[..] == Zeros(64)
    {
      count0, count1 := 0, 0;
      forall k | 0 <= k < 5 { state[k] := 0; }
      forall k | 0 <= k < 64 { buffer[k] := 0; }
    }
  }

  /** Piece `k` and what is waiting of the pieces before it add up in 32 bits. */
  ghost predicate Fits(pieces: seq<seq<byte>>, k: nat)
    requires k < |pieces|
  {
    |Concat(pieces[..k])| % 64 + |pieces[k]| < 0x1_0000_0000
  }

  /** The first `n` pieces do. */
  ghost predicate AllFit(pieces: seq<seq<byte>>, n: nat)
    requires n <= |pieces|
  {
    n > 0 ==> AllFit(pieces, n - 1) && Fits(pieces, n - 1)
  }

  lemma FewerFit(pieces: seq<seq<byte>>, k: nat, n: nat)
    requires k <= n <= |pieces| && AllFit(pieces, n)
    ensures AllFit(pieces, k)
    decreases n
  {
    if k < n {
      FewerFit(pieces, k, n - 1);
    }
  }

  method Digest(context: Sha1Context) returns (digest: seq<byte>)
    requires context.Valid()
    modifies context, context.state, context.buffer
    ensures digest == Hash(old(context.seen))
  {
    var out := new byte[20];
    context.Final(out);
    digest := out[..];
  }

  /** After one byte, no piece of 2^32 - 1 bytes fits. */
  lemma OneByteTooMany(first: byte, piece: seq<byte>)
    requires |piece| == 0xFFFF_FFFF
    ensures !AllFit([[first], piece], 2)
  {
    var pieces := [[first], piece];
    OneMore(pieces, 0);
    assert Concat(pieces[..0]) == [] && pieces[0] == [first];
    assert !Fits(pieces, 1);
  }

  /** Piece `k`, after those before it. */
  method Feed(context: Sha1Context, pieces: seq<seq<byte>>, k: nat) returns (fits: bool)
    requires k < |pieces| && context.Valid() && context.seen == Concat(pieces[..k]) && |pieces[k]| < 0x1_0000_0000
    modifies context, context.state, context.buffer
    ensures fits == Fits(pieces, k)
    ensures fits ==> context.Valid() && context.seen == Concat(pieces[..k + 1])
  {
    OneMore(pieces, k);
    fits := context.Update(pieces[k]);
  }

  /** However a message is cut into pieces, its digest is the one of FIPS 180-4, if every piece fits. */
  method HashPieces(pieces: seq<seq<byte>>) returns (digest: Option<seq<byte>>)
    requires forall p :: p in pieces ==> |p| < 0x1_0000_0000
    ensures digest == if AllFit(pieces, |pieces|) then Some(Hash(Concat(pieces))) else None
  {
    var context := new Sha1Context();
    var k, fits := 0, true;
    while k < |pieces| && fits
      invariant 0 <= k <= |pieces| && fresh(context) && fresh(context.state) && fresh(context.buffer)
      invariant fits ==> context.Valid() && context.seen == Concat(pieces[..k])
      invariant fits == AllFit(pieces, k)
    {
      assert pieces[k] in pieces;
      fits := Feed(context, pieces, k);
      k := k + 1;
    }
    if !fits {
      assert !AllFit(pieces, |pieces|) by {
        if AllFit(pieces, |pieces|) { FewerFit(pieces, k, |pieces|); }
      }
      return None;
    }
    assert pieces[..k] == pieces;
    var all := Digest(context);
    digest := Some(all);
  }
}
