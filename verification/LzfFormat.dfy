/** The LZF stream format: what a compressed byte string means.

    A stream is a sequence of blocks. A control byte below 32 announces a run of
    ctrl + 1 literal bytes. Any other control byte is a back reference: its top three
    bits, extended by one more byte when they are all set, give the length minus two, and its
    low five bits with the last byte of the block give the distance minus one.

    `Decode` reads a stream one block at a time and copies back references one octet at a
    time. It is the reference that both the decompressor and the compressor are held to. */
module LzfFormat {
  import opened Basics

  const MAX_LIT := 32
  const MAX_OFF := 8192
  const MAX_REF := 264

  datatype Outcome = Done(bytes: seq<byte>) | TooBig | Invalid

  /** The control part of a block: its own size in the stream, and what it asks for. */
  datatype Header = Run(count: nat) | Back(size: nat, count: nat, dist: nat) | Truncated

  function ReadHeader(s: seq<byte>): (h: Header)
    requires s != []
    ensures h.Run? ==> 1 <= h.count <= MAX_LIT
    ensures h.Back? ==> h.size <= |s| && 2 <= h.size && 3 <= h.count <= MAX_REF && 1 <= h.dist <= MAX_OFF
  {
    var ctrl: nat := s[0];
    var next: nat := if |s| > 1 then s[1] else 0;
    if ctrl < 32 then Run(ctrl + 1)
    else if ctrl / 32 < 7 then
      if |s| < 2 then Truncated
      else Back(2, ctrl / 32 + 2, ctrl % 32 * 256 + next + 1)
    else if |s| < 3 then Truncated
    else Back(3, 9 + next, ctrl % 32 * 256 + s[2] + 1)
  }

  /** Appends `count` octets, each copied from `dist` octets before the growing end. */
  function CopyBack(done: seq<byte>, dist: nat, count: nat): (r: seq<byte>)
    requires 1 <= dist <= |done|
    ensures |r| == |done| + count
    ensures r[..|done|] == done
    ensures forall k :: |done| <= k < |r| ==> r[k] == r[k - dist]
    decreases count
  {
    if count == 0 then done
    else
      var r := CopyBack(done, dist, count - 1);
      r + [r[|r| - dist]]
  }

  /** What one block does: it is refused, or it takes `size` bytes and leaves `done`. */
  datatype Block = Refused(why: Outcome) | Taken(size: nat, done: seq<byte>)

  /** The meaning of the block at the front of `s`, after `done`, with room for `cap` octets. */
  function ReadBlock(s: seq<byte>, cap: nat, done: seq<byte>): (b: Block)
    requires s != []
    ensures b.Refused? ==> !b.why.Done?
    ensures b.Taken? ==> 1 <= b.size <= |s| && |done| < |b.done| <= cap && done <= b.done
  {
    match ReadHeader(s)
    case Truncated => Refused(Invalid)
    case Run(n) =>
      if |done| + n > cap then Refused(TooBig)
      else if 1 + n > |s| then Refused(Invalid)
      else Taken(1 + n, done + s[1..1 + n])
    case Back(size, count, dist) =>
      if |done| + count > cap then Refused(TooBig)
      else if dist > |done| then Refused(Invalid)
      else Taken(size, CopyBack(done, dist, count))
  }

  /** What a stream expands to after `done`, when at most `cap` octets fit. */
  function Decode(s: seq<byte>, cap: nat, done: seq<byte>): Outcome
    decreases |s|
  {
    if s == [] then Done(done)
    else
      match ReadBlock(s, cap, done)
      case Refused(why) => why
      case Taken(size, more) => Decode(s[size..], cap, more)
  }

  /** The whole stream `s` expands to `bytes`. */
  ghost predicate Expands(s: seq<byte>, bytes: seq<byte>) {
    Decode(s, |bytes|, []) == Done(bytes)
  }

  /** A back reference is determined by its two defining facts: it extends `done`, and each
      new octet repeats the one `dist` before it. */
  lemma {:induction false} CopyBackUnique(done: seq<byte>, dist: nat, count: nat, r: seq<byte>)
    requires 1 <= dist <= |done|
    requires |r| == |done| + count
    requires r[..|done|] == done
    requires forall k :: |done| <= k < |r| ==> r[k] == r[k - dist]
    ensures r == CopyBack(done, dist, count)
    decreases count
  {
    if count == 0 {
      assert r == r[..|done|];
    } else {
      var q := r[..|r| - 1];
      assert q[..|done|] == r[..|done|];
      CopyBackUnique(done, dist, count - 1, q);
      assert r == q + [r[|r| - 1]];
      assert r[|r| - 1] == r[|r| - 1 - dist] == q[|q| - dist];
    }
  }

  /** More room never changes a successful result. */
  lemma {:induction false} DecodeMoreRoom(s: seq<byte>, cap: nat, cap': nat, done: seq<byte>)
    requires cap <= cap'
    requires Decode(s, cap, done).Done?
    ensures Decode(s, cap', done) == Decode(s, cap, done)
    decreases |s|
  {
    if s != [] {
      var b := ReadBlock(s, cap, done);
      assert ReadBlock(s, cap', done) == b;
      DecodeMoreRoom(s[b.size..], cap, cap', b.done);
    }
  }

  lemma BlockIgnoresRest(s: seq<byte>, t: seq<byte>, cap: nat, done: seq<byte>)
    requires s != [] && ReadBlock(s, cap, done).Taken?
    ensures ReadBlock(s + t, cap, done) == ReadBlock(s, cap, done)
  {
    assert ReadHeader(s + t) == ReadHeader(s);
    match ReadHeader(s)
    case Run(n) => assert (s + t)[1..1 + n] == s[1..1 + n];
    case Back(_, _, _) =>
  }

  /** Streams concatenate: what follows a complete stream continues from its expansion. */
  lemma {:induction false} DecodeConcat(s: seq<byte>, t: seq<byte>, cap: nat, done: seq<byte>)
    requires Decode(s, cap, done).Done?
    ensures Decode(s + t, cap, done) == Decode(t, cap, Decode(s, cap, done).bytes)
    decreases |s|
  {
    if s == [] {
      assert s + t == t;
    } else {
      var b := ReadBlock(s, cap, done);
      var rest := s[b.size..];
      assert Decode(s + t, cap, done) == Decode(rest + t, cap, b.done) by {
        BlockIgnoresRest(s, t, cap, done);
        assert (s + t)[b.size..] == rest + t;
      }
      DecodeConcat(rest, t, cap, b.done);
    }
  }

  /** A complete stream followed by one more block. */
  lemma ExpandsBlock(s: seq<byte>, bytes: seq<byte>, t: seq<byte>, more: seq<byte>)
    requires Expands(s, bytes)
    requires t != [] && ReadBlock(t, |more|, bytes) == Taken(|t|, more)
    ensures Expands(s + t, more)
  {
    DecodeMoreRoom(s, |bytes|, |more|, []);
    DecodeConcat(s, t, |more|, []);
    assert t[|t|..] == [];
  }

  lemma ExpandsRun(s: seq<byte>, bytes: seq<byte>, run: seq<byte>)
    requires Expands(s, bytes)
    requires 1 <= |run| <= MAX_LIT
    ensures Expands(s + [|run| - 1] + run, bytes + run)
  {
    var t: seq<byte> := [|run| - 1] + run;
    assert t[1..1 + |run|] == run;
    ExpandsBlock(s, bytes, t, bytes + run);
    assert s + [|run| - 1] + run == s + t;
  }

  lemma ExpandsReference(s: seq<byte>, bytes: seq<byte>, count: nat, dist: nat)
    requires Expands(s, bytes)
    requires 3 <= count <= MAX_REF && 1 <= dist <= MAX_OFF && dist <= |bytes|
    ensures Expands(s + Reference(count, dist), CopyBack(bytes, dist, count))
  {
    ReferenceReads(count, dist);
    ExpandsBlock(s, bytes, Reference(count, dist), CopyBack(bytes, dist, count));
  }

  lemma ReferenceReads(count: nat, dist: nat)
    requires 3 <= count <= MAX_REF && 1 <= dist <= MAX_OFF
    ensures var t := Reference(count, dist); ReadHeader(t) == Back(|t|, count, dist)
  {
  }

  lemma FirstBlock(s: seq<byte>, rest: seq<byte>, cap: nat, done: seq<byte>, size: nat, more: seq<byte>)
    requires s != [] && ReadBlock(s, cap, done) == Taken(size, more) && rest == s[size..]
    ensures Decode(s, cap, done) == Decode(rest, cap, more)
  {
  }

  /** Twenty octets: two literals, and eighteen more that repeat the last one. */
  lemma Example(bytes: seq<byte>)
    requires |bytes| == 20 && bytes[0] == 97 && forall k :: 1 <= k < 20 ==> bytes[k] == 98
    ensures Expands([1, 97, 98, 0xe0, 9, 0], bytes)
  {
    var run: seq<byte>, back: seq<byte> := [1, 97, 98], [0xe0, 9, 0];
    ExampleRun(run, back, bytes[..2]);
    ExampleBack(back, bytes[..2], bytes);
    assert (run + back)[3..] == back && back[3..] == [];
    FirstBlock(run + back, back, 20, [], 3, bytes[..2]);
    FirstBlock(back, [], 20, bytes[..2], 3, bytes);
    assert run + back == [1, 97, 98, 0xe0, 9, 0];
  }

  lemma ExampleRun(run: seq<byte>, back: seq<byte>, two: seq<byte>)
    requires run == [1, 97, 98] && two == [97, 98]
    ensures ReadBlock(run + back, 20, []) == Taken(3, two)
  {
    assert (run + back)[1..3] == two && [] + two == two;
  }

  lemma ExampleBack(back: seq<byte>, two: seq<byte>, bytes: seq<byte>)
    requires back == [0xe0, 9, 0] && |two| == 2
    requires |bytes| == 20 && bytes[..2] == two && forall k :: 2 <= k < 20 ==> bytes[k] == bytes[k - 1]
    ensures ReadBlock(back, 20, two) == Taken(3, bytes)
  {
    CopyBackUnique(two, 1, 18, bytes);
  }

  /** The two- or three-byte block for a back reference. */
  function Reference(count: nat, dist: nat): (r: seq<byte>)
    requires 3 <= count <= MAX_REF && 1 <= dist <= MAX_OFF
    ensures |r| == if count < 9 then 2 else 3
  {
    var off: nat := dist - 1;
    if count < 9 then [off / 256 + (count - 2) * 32, off % 256]
    else [off / 256 + 7 * 32, count - 9, off % 256]
  }
}
