/** `lzfDecompress`: expands a stream into a caller's buffer, with every read and
    write checked to stay inside the two buffers. */
module LzfDecompress {
  import opened Basics
  import opened LzfFormat

  datatype Errno = Ok | E2BIG | EINVAL

  /** How many octets a ladder entered at `entry` has copied once it has passed case `k`. */
  function Passed(entry: nat, k: nat): nat {
    if entry < k then 0 else entry - k + 1
  }

  /** The state behind case `k` of a ladder of fall-through cases that copies input octets. */
  ghost predicate RunLadder(input: seq<byte>, ip0: nat, before: seq<byte>, out: seq<byte>, op0: nat,
                            entry: nat, k: nat, ip: nat, op: nat) {
    && 1 <= k && ip0 + entry <= |input| && op0 + entry <= |before| == |out|
    && ip == ip0 + Passed(entry, k) && op == op0 + Passed(entry, k)
    && out == before[..op0] + input[ip0..ip] + before[op..]
  }

  /** Case `k`: skipped when the ladder is entered further down. */
  method RunCase(k: nat, entry: nat, input: array<byte>, ip: nat, out: array<byte>, op: nat,
                 ghost ip0: nat, ghost op0: nat, ghost before: seq<byte>)
    returns (ip': nat, op': nat)
    requires input != out && 1 <= k && RunLadder(input[..], ip0, before, out[..], op0, entry, k + 1, ip, op)
    modifies out
    ensures RunLadder(input[..], ip0, before, out[..], op0, entry, k, ip', op')
  {
    ip', op' := ip, op;
    if entry >= k {
      out[op] := input[ip];
      ip', op' := ip + 1, op + 1;
    }
  }

  /** Eight cases, `top` and the seven below it. */
  method EightCases(top: nat, entry: nat, input: array<byte>, ip0: nat, out: array<byte>, op0: nat,
                    ghost ip1: nat, ghost op1: nat, ghost before: seq<byte>)
    returns (ip: nat, op: nat)
    requires input != out && 8 <= top && RunLadder(input[..], ip1, before, out[..], op1, entry, top + 1, ip0, op0)
    modifies out
    ensures RunLadder(input[..], ip1, before, out[..], op1, entry, top - 7, ip, op)
  {
    ip, op := RunCase(top, entry, input, ip0, out, op0, ip1, op1, before);
    ip, op := RunCase(top - 1, entry, input, ip, out, op, ip1, op1, before);
    ip, op := RunCase(top - 2, entry, input, ip, out, op, ip1, op1, before);
    ip, op := RunCase(top - 3, entry, input, ip, out, op, ip1, op1, before);
    ip, op := RunCase(top - 4, entry, input, ip, out, op, ip1, op1, before);
    ip, op := RunCase(top - 5, entry, input, ip, out, op, ip1, op1, before);
    ip, op := RunCase(top - 6, entry, input, ip, out, op, ip1, op1, before);
    ip, op := RunCase(top - 7, entry, input, ip, out, op, ip1, op1, before);
  }

  /** The ladder of a literal run: thirty-two fall-through cases, entered at the length of the run. */
  method CopyRun(input: array<byte>, ip0: nat, out: array<byte>, op0: nat, entry: nat)
    returns (ip: nat, op: nat)
    requires input != out && entry <= MAX_LIT
    requires ip0 + entry <= input.Length && op0 + entry <= out.Length
    modifies out
    ensures ip == ip0 + entry && op == op0 + entry
    ensures out[..] == old(out[..op0]) + input[ip0..ip] + old(out[op..])
  {
    ghost var before := out[..];
    ip, op := EightCases(32, entry, input, ip0, out, op0, ip0, op0, before);
    ip, op := EightCases(24, entry, input, ip, out, op, ip0, op0, before);
    ip, op := EightCases(16, entry, input, ip, out, op, ip0, op0, before);
    ip, op := EightCases(8, entry, input, ip, out, op, ip0, op0, before);
    assert input[..][ip0..ip] == input[ip0..ip];
  }

  /** The loop for areas that overlap: octet by octet. */
  method CopyOctets(out: array<byte>, ref0: nat, op0: nat, count: nat) returns (op: nat)
    requires ref0 < op0 && op0 + count <= out.Length
    modifies out
    ensures op == op0 + count
    ensures out[..op] == CopyBack(old(out[..op0]), op0 - ref0, count)
    ensures out[op..] == old(out[op..])
  {
    var ref: nat, left: nat := ref0, count;
    op := op0;
    while left > 0
      invariant left <= count
      invariant op == op0 + count - left && ref == ref0 + count - left
      invariant out[..op] == CopyBack(old(out[..op0]), op0 - ref0, count - left)
      invariant out[op..] == old(out[op..])
    {
      ghost var before := out[..op];
      out[op] := out[ref];
      op, ref, left := op + 1, ref + 1, left - 1;
      assert out[..op] == before + [before[|before| - (op0 - ref0)]];
    }
  }

  /** The state after `n` octets of a back reference. */
  ghost predicate Copying(done: seq<byte>, before: seq<byte>, out: seq<byte>, dist: nat, n: nat, ref: nat, op: nat) {
    && 1 <= dist <= |done| && |before| == |out| && op == |done| + n <= |out| && ref == op - dist
    && out[..op] == CopyBack(done, dist, n) && out[op..] == before[op..]
  }

  /** One octet of a back reference: `*op++ = *ref++`. */
  method OneOctet(out: array<byte>, ref: nat, op: nat, ghost done: seq<byte>, ghost before: seq<byte>,
                  ghost dist: nat, ghost n: nat)
    returns (ref': nat, op': nat)
    requires Copying(done, before, out[..], dist, n, ref, op) && op < out.Length
    modifies out
    ensures Copying(done, before, out[..], dist, n + 1, ref', op')
  {
    ghost var r := out[..op];
    out[op] := out[ref];
    ref', op' := ref + 1, op + 1;
    assert out[..op'] == r + [r[|r| - dist]];
  }

  /** Case `k` of the ladder of a short back reference. */
  method ReferenceCase(k: nat, len: nat, out: array<byte>, ref: nat, op: nat,
                       ghost done: seq<byte>, ghost before: seq<byte>, ghost dist: nat)
    returns (ref': nat, op': nat)
    requires 1 <= k && |done| + len <= out.Length
    requires Copying(done, before, out[..], dist, Passed(len, k + 1), ref, op)
    modifies out
    ensures Copying(done, before, out[..], dist, Passed(len, k), ref', op')
  {
    ref', op' := ref, op;
    if len >= k {
      ref', op' := OneOctet(out, ref, op, done, before, dist, Passed(len, k + 1));
    }
  }

  /** The ladder of a short back reference: nine fall-through cases and two octets more. */
  method CopyShort(out: array<byte>, ref0: nat, op0: nat, len: nat) returns (op: nat)
    requires ref0 < op0 && len <= 9 && op0 + len + 2 <= out.Length
    modifies out
    ensures op == op0 + len + 2
    ensures out[..op] == CopyBack(old(out[..op0]), op0 - ref0, len + 2)
    ensures out[op..] == old(out[op..])
  {
    ghost var done, before, dist := out[..op0], out[..], op0 - ref0;
    var ref: nat;
    ref, op := ReferenceCase(9, len, out, ref0, op0, done, before, dist);
    ref, op := ReferenceCase(8, len, out, ref, op, done, before, dist);
    ref, op := ReferenceCase(7, len, out, ref, op, done, before, dist);
    ref, op := ReferenceCase(6, len, out, ref, op, done, before, dist);
    ref, op := ReferenceCase(5, len, out, ref, op, done, before, dist);
    ref, op := ReferenceCase(4, len, out, ref, op, done, before, dist);
    ref, op := ReferenceCase(3, len, out, ref, op, done, before, dist);
    ref, op := ReferenceCase(2, len, out, ref, op, done, before, dist);
    ref, op := ReferenceCase(1, len, out, ref, op, done, before, dist);
    ref, op := OneOctet(out, ref, op, done, before, dist, len);
    ref, op := OneOctet(out, ref, op, done, before, dist, len + 1);
  }

  /** `memcpy` between disjoint areas of the output. */
  method CopyDisjoint(out: array<byte>, ref: nat, op0: nat, count: nat) returns (op: nat)
    requires ref + count <= op0 && op0 + count <= out.Length
    modifies out
    ensures op == op0 + count
    ensures out[..] == old(out[..op0]) + old(out[ref..ref + count]) + old(out[op..])
  {
    forall k | 0 <= k < count { out[op0 + k] := out[ref + k]; }
    op := op0 + count;
  }

  /** The copy of a back reference: short ones fall through a ladder of single octets, long
      ones use `memcpy` when source and target are disjoint and single octets otherwise. */
  method CopyReference(out: array<byte>, ref: nat, op0: nat, len: nat) returns (op: nat)
    requires ref < op0 && op0 + len + 2 <= out.Length
    modifies out
    ensures op == op0 + len + 2
    ensures out[..op] == CopyBack(old(out[..op0]), op0 - ref, len + 2)
    ensures out[op..] == old(out[op..])
  {
    ghost var done := out[..op0];
    if len <= 9 {
      op := CopyShort(out, ref, op0, len);
    } else if op0 >= ref + len + 2 {
      op := CopyDisjoint(out, ref, op0, len + 2);
      assert out[..op] == done + done[ref..ref + len + 2];
      CopyBackUnique(done, op0 - ref, len + 2, out[..op]);
    } else {
      op := CopyOctets(out, ref, op0, len + 2);
    }
  }

  /** Outcome of one block, in the decompressor's terms. */
  ghost predicate Agrees(b: Block, ip0: nat, ip: nat, op: nat, err: Errno, out: seq<byte>) {
    match b
    case Taken(size, more) => err == Ok && ip == ip0 + size && op == |more| <= |out| && out[..op] == more
    case Refused(why) => err == if why.TooBig? then E2BIG else EINVAL
  }

  /** A literal run whose control byte is at `ip0`. */
  method TakeRun(input: array<byte>, ip0: nat, out: array<byte>, op0: nat)
    returns (ip: nat, op: nat, err: Errno)
    requires input != out && ip0 < input.Length && op0 <= out.Length
    requires input[ip0] < 32
    modifies out
    ensures Agrees(ReadBlock(input[ip0..], out.Length, old(out[..op0])), ip0, ip, op, err, out[..])
    ensures err == Ok ==> op <= out.Length && out[op..] == old(out[op..])
  {
    ghost var rest, done := input[ip0..], out[..op0];
    ip, op, err := ip0 + 1, op0, Ok;
    var ctrl := input[ip0] + 1;
    if op + ctrl > out.Length {
      return ip, op, E2BIG;
    }
    if ip + ctrl > input.Length {
      return ip, op, EINVAL;
    }
    ip, op := CopyRun(input, ip, out, op, ctrl);
    assert out[..op] == done + rest[1..1 + ctrl];
  }

  /** The header of a back reference, with its control byte at `ip0`: the length and the position it
      refers to, which may be before the first octet. */
  method TakeHeader(input: array<byte>, ip0: nat, op: nat) returns (ok: bool, ip: nat, len: nat, ref: int)
    requires ip0 < input.Length && input[ip0] >= 32
    ensures !ok ==> ReadHeader(input[ip0..]).Truncated?
    ensures ok ==> ip0 < ip && ref < op && ReadHeader(input[ip0..]) == Back(ip - ip0, len + 2, op - ref)
  {
    ghost var rest := input[ip0..];
    ip := ip0 + 1;
    var ctrl: nat := input[ip0];
    len := ctrl / 32;
    ref := op - ctrl % 32 * 256 - 1;
    ok := false;
    if ip >= input.Length {
      assert |rest| == 1;
      return;
    }
    if len == 7 {
      len := len + input[ip];
      ip := ip + 1;
      if ip >= input.Length {
        assert |rest| == 2;
        return;
      }
    }
    assert input[ip] == rest[ip - ip0];
    ref := ref - input[ip];
    ip := ip + 1;
    ok := true;
  }

  /** A back reference whose control byte is at `ip0`. */
  method TakeReference(input: array<byte>, ip0: nat, out: array<byte>, op0: nat)
    returns (ip: nat, op: nat, err: Errno)
    requires input != out && ip0 < input.Length && op0 <= out.Length
    requires input[ip0] >= 32
    modifies out
    ensures Agrees(ReadBlock(input[ip0..], out.Length, old(out[..op0])), ip0, ip, op, err, out[..])
    ensures err == Ok ==> op <= out.Length && out[op..] == old(out[op..])
  {
    op, err := op0, Ok;
    var ok, len, ref;
    ok, ip, len, ref := TakeHeader(input, ip0, op);
    if !ok {
      return ip, op, EINVAL;
    }
    if op + len + 2 > out.Length {
      return ip, op, E2BIG;
    }
    if ref < 0 {
      return ip, op, EINVAL;
    }
    op := CopyReference(out, ref, op, len);
  }

  /** `lzfDecompress`. On success the first `n` octets of `out` are the expansion of the
      input, octets after those keep their value, and each of the two errors is
      reported exactly when the format says so. */
  method Decompress(input: array<byte>, out: array<byte>) returns (n: nat, err: Errno)
    requires input != out
    requires input.Length >= 1
    modifies out
    ensures match Decode(input[..], out.Length, [])
      case Done(bytes) => err == Ok && 0 < n == |bytes| <= out.Length
                          && out[..n] == bytes && out[n..] == old(out[n..])
      case TooBig => err == E2BIG && n == 0
      case Invalid => err == EINVAL && n == 0
  {
    var ip: nat, op: nat := 0, 0;
    while ip < input.Length
      invariant ip <= input.Length && op <= out.Length
      invariant Decode(input[..], out.Length, []) == Decode(input[ip..], out.Length, out[..op])
      invariant out[op..] == old(out[op..])
      invariant ip == 0 <==> op == 0
    {
      ghost var rest := input[ip..];
      ghost var b := ReadBlock(rest, out.Length, out[..op]);
      if input[ip] < 32 {
        ip, op, err := TakeRun(input, ip, out, op);
      } else {
        ip, op, err := TakeReference(input, ip, out, op);
      }
      if err != Ok {
        return 0, err;
      }
      assert input[ip..] == rest[b.size..];
    }
    assert input[ip..] == [];
    return op, Ok;
  }
}
