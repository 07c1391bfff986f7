/** What `lzfCompress` writes: at every position the hash table gives at most one earlier position to copy from, the
    match is taken whenever it starts the same three octets, and it is extended as far as the source allows. The
    table is a parameter: the source never initialises it. */
module LzfGreedy {
  import opened Basics
  import opened LzfFormat

  type u32 = x: int | 0 <= x < 0x1_0000_0000

  const HSIZE := 65536

  function First(p0: byte, p1: byte): u32 {
    var high: nat := p0;
    high * 256 + p1
  }

  function Next(v: u32, third: byte): u32 {
    v * 256 % 0x1_0000_0000 + third
  }

  function Idx(h: u32): (i: nat)
    ensures i < HSIZE
  {
    (h / 256 - h * 5) % HSIZE
  }

  /** The slot of three octets. */
  function Slot(a: byte, b: byte, c: byte): (i: nat)
    ensures i < HSIZE
  {
    Idx(Next(First(a, b), c))
  }

  /** The rolling hash is ready for position `ip`: its low half is the two octets there. What it still
      holds of earlier octets does not reach the slot. */
  ghost predicate Rolled(v: u32, input: seq<byte>, ip: nat) {
    ip + 1 < |input| && v % 65536 == First(input[ip], input[ip + 1])
  }

  /** The slot looked at depends on the three octets at the position alone, so a position is found again by
      the same three octets however the scan came there. */
  lemma SlotOfRolled(v: u32, input: seq<byte>, ip: nat)
    requires Rolled(v, input, ip) && ip + 2 < |input|
    ensures Idx(Next(v, input[ip + 2])) == Slot(input[ip], input[ip + 1], input[ip + 2])
    ensures Rolled(Next(v, input[ip + 2]), input, ip + 1)
  {
    var w: nat, c: nat, k: nat := First(input[ip], input[ip + 1]), input[ip + 2], v / 65536;
    assert v == k * 65536 + w;
    NextOfSplit(k, w, c);
    IdxOfSplit(k % 256, w, c);
    IdxOfSplit(0, w, c);
    NextOfSplit(0, w, c);
    LowHalf(k % 256, input[ip], input[ip + 1], c);
  }

  lemma NextOfSplit(k: nat, w: nat, c: nat)
    requires k < 65536 && w < 65536 && c < 256
    ensures Next(k * 65536 + w, c) == k % 256 * 0x100_0000 + w * 256 + c
  {
    assert (k * 65536 + w) * 256 == k / 256 * 0x1_0000_0000 + (k % 256 * 0x100_0000 + w * 256);
  }

  lemma IdxOfSplit(top: nat, w: nat, c: nat)
    requires top < 256 && w < 65536 && c < 256
    ensures Idx(top * 0x100_0000 + w * 256 + c) == (w - (w * 256 + c) * 5) % HSIZE
  {
    var h := top * 0x100_0000 + w * 256 + c;
    assert h / 256 == top * 65536 + w;
    assert h / 256 - h * 5 == (top - top * 256 * 5) * 65536 + (w - (w * 256 + c) * 5);
    Periodic(w - (w * 256 + c) * 5, top - top * 256 * 5);
  }

  lemma Periodic(x: int, k: int)
    ensures (k * 65536 + x) % 65536 == x % 65536
  {
    var q, r := x / 65536, x % 65536;
    assert k * 65536 + x == (k + q) * 65536 + r;
  }

  lemma LowHalf(top: nat, a: byte, b: byte, c: nat)
    requires top < 256 && c < 256
    ensures (top * 0x100_0000 + First(a, b) * 256 + c) % 65536 == b as int * 256 + c
  {
    var x: nat := b as int * 256 + c;
    assert top * 0x100_0000 + First(a, b) * 256 + c == (top * 256 + a as int) * 65536 + x;
    Periodic(x, top * 256 + a as int);
  }

  /** Of the number that the three octets form, the upper two bytes minus five times the number. */
  lemma SlotIs(a: byte, b: byte, c: byte, n: nat)
    requires n == 65536 * a as int + 256 * b as int + c as int
    ensures Slot(a, b, c) == (n / 256 - 5 * n) % 65536
  {
    var w: nat, third: nat := First(a, b), c;
    NextOfSplit(0, w, third);
    IdxOfSplit(0, w, third);
    assert n == w * 256 + third && n / 256 == w;
  }

  /** The slot of the three octets at `ip`. */
  ghost function SlotAt(input: seq<byte>, ip: nat): nat
    requires ip + 2 < |input|
  {
    Slot(input[ip], input[ip + 1], input[ip + 2])
  }

  type Index = i: nat | i < HSIZE

  /** These are the slots of all positions with three octets. */
  ghost predicate Slotted(input: seq<byte>, slots: seq<Index>) {
    && |slots| + 2 >= |input|
    && forall i {:trigger SlotAt(input, i)} :: 0 <= i < |input| - 2 ==> slots[i] == SlotAt(input, i)
  }

  ghost function SlotsOf(input: seq<byte>): (slots: seq<Index>)
    ensures Slotted(input, slots)
  {
    if |input| < 2 then [0, 0] else seq(|input| - 2, i requires 0 <= i < |input| - 2 => SlotAt(input, i))
  }

  /** The octets at `ip` repeat those at `ref`, for `len` octets. */
  ghost predicate Repeats(input: seq<byte>, ref: nat, ip: nat, len: nat) {
    ref < ip && ip + len <= |input| && forall k :: ip <= k < ip + len ==> input[k] == input[k - (ip - ref)]
  }

  // ---------------------------------------------------------------- matches

  /** The position kept for `ip` is near, is not the first, and starts the same three octets. */
  ghost predicate Hit(input: seq<byte>, ref: nat, ip: nat) {
    ref > 0 && ip - ref <= MAX_OFF && Repeats(input, ref, ip, 3)
  }

  /** The longest length that is tried at `ip`: sixteen comparisons are made without a test of the length. */
  function Limit(n: nat, ip: nat): (limit: nat)
    requires ip + 2 < n
    ensures 3 <= limit <= MAX_REF && ip + limit <= n && (n - ip - 2 <= limit || limit == MAX_REF)
  {
    var maxlen := if n - ip - 2 > MAX_REF then MAX_REF else n - ip - 2;
    if maxlen > 16 then if maxlen < 19 then 19 else maxlen
    else if maxlen < 3 then 3 else maxlen
  }

  /** The octets from `ref` and from `ip` agree up to this length, which is the limit or ends in a difference. */
  ghost predicate IsExtent(input: seq<byte>, ref: nat, ip: nat, len: nat) {
    && ip + 2 < |input| && 3 <= len <= Limit(|input|, ip) && Repeats(input, ref, ip, len)
    && (len == Limit(|input|, ip) || input[ref + len] != input[ip + len])
  }

  lemma RepeatsAt(input: seq<byte>, ref: nat, ip: nat, len: nat, k: nat)
    requires Repeats(input, ref, ip, len) && k < len
    ensures input[ref + k] == input[ip + k]
  {
    assert input[ip + k] == input[ip + k - (ip - ref)];
  }

  lemma ExtentUnique(input: seq<byte>, ref: nat, ip: nat, k: nat, len: nat)
    requires IsExtent(input, ref, ip, k) && IsExtent(input, ref, ip, len)
    ensures k == len
  {
    if k < len {
      RepeatsAt(input, ref, ip, len, k);
    } else if len < k {
      RepeatsAt(input, ref, ip, k, len);
    }
  }

  lemma {:induction false} ExtentExists(input: seq<byte>, ref: nat, ip: nat, k: nat) returns (len: nat)
    requires ip + 2 < |input| && 3 <= k <= Limit(|input|, ip) && Repeats(input, ref, ip, k)
    ensures IsExtent(input, ref, ip, len)
    decreases |input| - k
  {
    if k == Limit(|input|, ip) || input[ref + k] != input[ip + k] {
      len := k;
    } else {
      len := ExtentExists(input, ref, ip, k + 1);
    }
  }

  ghost function Extent(input: seq<byte>, ref: nat, ip: nat): (len: nat)
    requires ip + 2 < |input| && Repeats(input, ref, ip, 3)
    ensures IsExtent(input, ref, ip, len)
  {
    assert exists len: nat :: IsExtent(input, ref, ip, len) by {
      var len := ExtentExists(input, ref, ip, 3);
    }
    var len: nat :| IsExtent(input, ref, ip, len);
    len
  }

  // ---------------------------------------------------------------- moves

  type Count = n: nat | 3 <= n <= MAX_REF witness 3

  type Dist = n: nat | 1 <= n <= MAX_OFF witness 1

  /** A literal, a back reference, or the last octets, for which the table is not asked. */
  datatype Moves =
    | Last(octets: seq<byte>)
    | Literal(octet: byte, rest: Moves)
    | Match(count: Count, dist: Dist, rest: Moves)

  /** The table after the position `ip` was entered. */
  ghost function Entered(slots: seq<Index>, tab: seq<u32>, ip: nat): (tab': seq<u32>)
    requires ip < |slots| && |tab| == HSIZE
    ensures |tab'| == HSIZE
  {
    tab[slots[ip] := ip % 0x1_0000_0000]
  }

  /** The table after a match in an input of `n` octets that ends before `ip`: its last two positions are entered. */
  ghost function Rehashed(slots: seq<Index>, n: nat, tab: seq<u32>, ip: nat): (tab': seq<u32>)
    requires 2 <= ip && |slots| + 2 >= n && |tab| == HSIZE
    ensures |tab'| == HSIZE
  {
    if ip + 2 < n then Entered(slots, Entered(slots, tab, ip - 2), ip - 1) else tab
  }

  /** The moves from `ip` on. */
  ghost function Parse(input: seq<byte>, slots: seq<Index>, tab: seq<u32>, ip: nat): Moves
    requires ip <= |input| && |slots| + 2 >= |input| && |tab| == HSIZE
    decreases |input| - ip
  {
    if ip + 2 >= |input| then Last(input[ip..])
    else
      var ref, tab' := tab[slots[ip]], Entered(slots, tab, ip);
      if Hit(input, ref, ip) then
        var len := Extent(input, ref, ip);
        Match(len, ip - ref, Parse(input, slots, Rehashed(slots, |input|, tab', ip + len), ip + len))
      else Literal(input[ip], Parse(input, slots, tab', ip + 1))
  }

  lemma ParseHit(input: seq<byte>, slots: seq<Index>, tab: seq<u32>, ip: nat, ref: nat, len: nat, tab': seq<u32>)
    requires ip + 2 < |input| <= |slots| + 2 && |tab| == HSIZE && tab[slots[ip]] == ref && Hit(input, ref, ip)
    requires len == Extent(input, ref, ip) && tab' == Rehashed(slots, |input|, Entered(slots, tab, ip), ip + len)
    ensures Parse(input, slots, tab, ip) == Match(len, ip - ref, Parse(input, slots, tab', ip + len))
  {
  }

  lemma ParseMiss(input: seq<byte>, slots: seq<Index>, tab: seq<u32>, ip: nat)
    requires ip + 2 < |input| <= |slots| + 2 && |tab| == HSIZE && !Hit(input, tab[slots[ip]], ip)
    ensures Parse(input, slots, tab, ip) == Literal(input[ip], Parse(input, slots, Entered(slots, tab, ip), ip + 1))
  {
  }

  /** These are the moves from `ip` on: a literal stands only where the position kept for it is no hit, a match only
      where it is one, and it goes as far as it may. */
  ghost predicate Follow(m: Moves, input: seq<byte>, slots: seq<Index>, tab: seq<u32>, ip: nat)
    requires ip <= |input| && |slots| + 2 >= |input| && |tab| == HSIZE
  {
    match m
    case Last(octets) => ip + 2 >= |input| && octets == input[ip..]
    case Literal(octet, rest) =>
      && ip + 2 < |input| && !Hit(input, tab[slots[ip]], ip) && octet == input[ip]
      && Follow(rest, input, slots, Entered(slots, tab, ip), ip + 1)
    case Match(count, dist, rest) =>
      && ip + 2 < |input| && Hit(input, tab[slots[ip]], ip)
      && dist == ip - tab[slots[ip]] && count == Extent(input, tab[slots[ip]], ip)
      && Follow(rest, input, slots, Rehashed(slots, |input|, Entered(slots, tab, ip), ip + count), ip + count)
  }

  lemma {:induction false} ParseFollows(input: seq<byte>, slots: seq<Index>, tab: seq<u32>, ip: nat)
    requires ip <= |input| <= |slots| + 2 && |tab| == HSIZE
    ensures Follow(Parse(input, slots, tab, ip), input, slots, tab, ip)
    decreases |input| - ip
  {
    if ip + 2 < |input| {
      var ref := tab[slots[ip]];
      if Hit(input, ref, ip) {
        var len := Extent(input, ref, ip);
        ParseFollows(input, slots, Rehashed(slots, |input|, Entered(slots, tab, ip), ip + len), ip + len);
      } else {
        ParseFollows(input, slots, Entered(slots, tab, ip), ip + 1);
      }
    }
  }

  // ---------------------------------------------------------------- the stream of a list of moves

  /** A stream and an open run after it, which is closed. */
  function Closed(stream: seq<byte>, run: seq<byte>): seq<byte>
    requires |run| <= MAX_LIT
  {
    if run == [] then stream else stream + [|run| - 1] + run
  }

  /** One more literal: a full run is closed at once. */
  function AddedStream(stream: seq<byte>, run: seq<byte>, octet: byte): seq<byte>
    requires |run| < MAX_LIT
  {
    if |run| + 1 == MAX_LIT then Closed(stream, run + [octet]) else stream
  }

  function AddedRun(run: seq<byte>, octet: byte): (r: seq<byte>)
    requires |run| < MAX_LIT
    ensures |r| < MAX_LIT
  {
    if |run| + 1 == MAX_LIT then [] else run + [octet]
  }

  function TailStream(octets: seq<byte>, stream: seq<byte>, run: seq<byte>): seq<byte>
    requires |run| < MAX_LIT
    decreases |octets|
  {
    if octets == [] then Closed(stream, run)
    else TailStream(octets[1..], AddedStream(stream, run, octets[0]), AddedRun(run, octets[0]))
  }

  lemma TailUnfold(input: seq<byte>, ip: nat, stream: seq<byte>, run: seq<byte>)
    requires ip < |input| && |run| < MAX_LIT
    ensures TailStream(input[ip..], stream, run)
         == TailStream(input[ip + 1..], AddedStream(stream, run, input[ip]), AddedRun(run, input[ip]))
  {
    assert input[ip..][1..] == input[ip + 1..];
  }

  /** The bytes for the moves, after a stream and an open run. */
  function Stream(m: Moves, stream: seq<byte>, run: seq<byte>): seq<byte>
    requires |run| < MAX_LIT
  {
    match m
    case Last(octets) => TailStream(octets, stream, run)
    case Literal(octet, rest) => Stream(rest, AddedStream(stream, run, octet), AddedRun(run, octet))
    case Match(count, dist, rest) => Stream(rest, Closed(stream, run) + Reference(count, dist), [])
  }

  /** The tests of the room in an output of `cap` bytes, of which `op` are used or reserved. */
  predicate Room(m: Moves, op: int, lit: nat, cap: nat) {
    match m
    case Last(_) => op + 3 <= cap
    case Literal(_, rest) =>
      op < cap && if lit + 1 == MAX_LIT then Room(rest, op + 2, 0, cap) else Room(rest, op + 1, lit + 1, cap)
    case Match(count, _, rest) =>
      var op' := if lit == 0 then op - 1 else op;
      op' + 4 < cap && Room(rest, op' + (if count < 9 then 2 else 3) + 1, 0, cap)
  }

  /** What the compressor writes. */
  ghost function Packed(input: seq<byte>, tab: seq<u32>): seq<byte>
    requires |tab| == HSIZE
  {
    Stream(Parse(input, SlotsOf(input), tab, 0), [], [])
  }

  /** The tests of the room, from the start. */
  ghost predicate HasRoom(input: seq<byte>, tab: seq<u32>, cap: nat)
    requires |tab| == HSIZE
  {
    Room(Parse(input, SlotsOf(input), tab, 0), 1, 0, cap)
  }

  lemma {:induction false} TailGrows(octets: seq<byte>, stream: seq<byte>, run: seq<byte>)
    requires |run| < MAX_LIT
    ensures |TailStream(octets, stream, run)| >= |Closed(stream, run)|
    decreases |octets|
  {
    if octets != [] {
      TailGrows(octets[1..], AddedStream(stream, run, octets[0]), AddedRun(run, octets[0]));
    }
  }

  lemma {:induction false} StreamGrows(m: Moves, stream: seq<byte>, run: seq<byte>)
    requires |run| < MAX_LIT
    ensures |Stream(m, stream, run)| >= |Closed(stream, run)|
  {
    match m
    case Last(octets) => TailGrows(octets, stream, run);
    case Literal(octet, rest) => StreamGrows(rest, AddedStream(stream, run, octet), AddedRun(run, octet));
    case Match(count, dist, rest) => StreamGrows(rest, Closed(stream, run) + Reference(count, dist), []);
  }

  /** Four bytes more than the stream needs are always enough for the tests. */
  lemma {:induction false} RoomSuffices(m: Moves, stream: seq<byte>, run: seq<byte>, cap: nat)
    requires |run| < MAX_LIT && cap >= |Stream(m, stream, run)| + 4
    ensures Room(m, |stream| + |run| + 1, |run|, cap)
  {
    StreamGrows(m, stream, run);
    match m
    case Last(octets) =>
    case Literal(octet, rest) =>
      StreamGrows(rest, AddedStream(stream, run, octet), AddedRun(run, octet));
      RoomSuffices(rest, AddedStream(stream, run, octet), AddedRun(run, octet), cap);
    case Match(count, dist, rest) =>
      StreamGrows(rest, Closed(stream, run) + Reference(count, dist), []);
      RoomSuffices(rest, Closed(stream, run) + Reference(count, dist), [], cap);
  }

  lemma PackedHasRoom(input: seq<byte>, tab: seq<u32>, cap: nat)
    requires |tab| == HSIZE && cap >= |Packed(input, tab)| + 4
    ensures HasRoom(input, tab, cap)
  {
    RoomSuffices(Parse(input, SlotsOf(input), tab, 0), [], [], cap);
  }

  // ---------------------------------------------------------------- what the stream expands to

  /** Repeating octets of the input are a back reference into what was already expanded. */
  lemma RepeatIsCopy(input: seq<byte>, ref: nat, ip: nat, len: nat)
    requires Repeats(input, ref, ip, len)
    ensures input[..ip + len] == CopyBack(input[..ip], ip - ref, len)
  {
    var r := input[..ip + len];
    assert r[..ip] == input[..ip];
    CopyBackUnique(input[..ip], ip - ref, len, r);
  }

  lemma ReferenceExpands(input: seq<byte>, stream: seq<byte>, ref: nat, ip: nat, octets: nat)
    requires Repeats(input, ref, ip, octets) && 3 <= octets <= MAX_REF && ip - ref <= MAX_OFF
    requires Expands(stream, input[..ip])
    ensures Expands(stream + Reference(octets, ip - ref), input[..ip + octets])
  {
    ExpandsReference(stream, input[..ip], octets, ip - ref);
    RepeatIsCopy(input, ref, ip, octets);
  }

  /** Moves that say what the input holds from `ip` on, whatever table they come from. */
  ghost predicate Encode(m: Moves, input: seq<byte>, ip: nat) {
    match m
    case Last(octets) => ip <= |input| <= ip + 2 && octets == input[ip..]
    case Literal(octet, rest) => ip + 2 < |input| && octet == input[ip] && Encode(rest, input, ip + 1)
    case Match(count, dist, rest) =>
      ip + 2 < |input| && dist <= ip && Repeats(input, ip - dist, ip, count) && Encode(rest, input, ip + count)
  }

  lemma {:induction false} FollowEncodes(m: Moves, input: seq<byte>, slots: seq<Index>, tab: seq<u32>, ip: nat)
    requires ip <= |input| <= |slots| + 2 && |tab| == HSIZE && Follow(m, input, slots, tab, ip)
    ensures Encode(m, input, ip)
    decreases m
  {
    match m
    case Last(_) =>
    case Literal(_, rest) => FollowEncodes(rest, input, slots, Entered(slots, tab, ip), ip + 1);
    case Match(count, _, rest) =>
      FollowEncodes(rest, input, slots, Rehashed(slots, |input|, Entered(slots, tab, ip), ip + count), ip + count);
  }

  /** The stream expands to the input before the open run. */
  ghost predicate Opened(input: seq<byte>, ip: nat, stream: seq<byte>, run: seq<byte>) {
    && |run| < MAX_LIT && |run| <= ip <= |input| && run == input[ip - |run|..ip]
    && Expands(stream, input[..ip - |run|])
  }

  lemma ClosedExpands(input: seq<byte>, ip: nat, stream: seq<byte>, run: seq<byte>)
    requires |run| <= MAX_LIT && |run| <= ip <= |input| && run == input[ip - |run|..ip]
    requires Expands(stream, input[..ip - |run|])
    ensures Expands(Closed(stream, run), input[..ip])
  {
    assert input[..ip] == input[..ip - |run|] + run;
    if run != [] {
      ExpandsRun(stream, input[..ip - |run|], run);
    }
  }

  lemma OpenedLiteral(input: seq<byte>, ip: nat, stream: seq<byte>, run: seq<byte>)
    requires Opened(input, ip, stream, run) && ip < |input|
    ensures Opened(input, ip + 1, AddedStream(stream, run, input[ip]), AddedRun(run, input[ip]))
  {
    var run' := run + [input[ip]];
    assert run' == input[ip - |run|..ip + 1];
    if |run'| == MAX_LIT {
      ClosedExpands(input, ip + 1, stream, run');
    }
  }

  lemma OpenedMatch(input: seq<byte>, ip: nat, stream: seq<byte>, run: seq<byte>, dist: Dist, count: Count)
    requires Opened(input, ip, stream, run) && dist <= ip && Repeats(input, ip - dist, ip, count)
    ensures Opened(input, ip + count, Closed(stream, run) + Reference(count, dist), [])
  {
    ClosedExpands(input, ip, stream, run);
    ReferenceExpands(input, Closed(stream, run), ip - dist, ip, count);
  }

  lemma EndExpands(input: seq<byte>, stream: seq<byte>, run: seq<byte>)
    requires Opened(input, |input|, stream, run)
    ensures Expands(Closed(stream, run), input)
  {
    ClosedExpands(input, |input|, stream, run);
    assert input[..|input|] == input;
  }

  lemma {:induction false} TailExpands(input: seq<byte>, ip: nat, octets: seq<byte>, stream: seq<byte>, run: seq<byte>)
    requires Opened(input, ip, stream, run) && octets == input[ip..]
    ensures Expands(TailStream(octets, stream, run), input)
    decreases |octets|
  {
    if octets == [] {
      EndExpands(input, stream, run);
    } else {
      assert octets[1..] == input[ip + 1..];
      OpenedLiteral(input, ip, stream, run);
      TailExpands(input, ip + 1, octets[1..], AddedStream(stream, run, octets[0]), AddedRun(run, octets[0]));
    }
  }

  /** The stream of moves that encode the input expands to it. */
  lemma {:induction false} StreamExpands(m: Moves, input: seq<byte>, ip: nat, stream: seq<byte>, run: seq<byte>)
    requires Opened(input, ip, stream, run) && Encode(m, input, ip)
    ensures Expands(Stream(m, stream, run), input)
    decreases m
  {
    match m
    case Last(octets) => TailExpands(input, ip, octets, stream, run);
    case Literal(octet, rest) =>
      OpenedLiteral(input, ip, stream, run);
      StreamExpands(rest, input, ip + 1, AddedStream(stream, run, octet), AddedRun(run, octet));
    case Match(count, dist, rest) =>
      OpenedMatch(input, ip, stream, run, dist, count);
      StreamExpands(rest, input, ip + count, Closed(stream, run) + Reference(count, dist), []);
  }

  // ---------------------------------------------------------------- how long it is

  /** `op` bytes are written or reserved, `lit` of them in the open run: the stream is ahead of the `ip` octets read by
      at most one byte in 32. */
  predicate Ahead(ip: nat, op: int, lit: nat) {
    lit < MAX_LIT && lit <= ip && lit < op && 32 * (op - 1 - ip) <= ip - lit
  }

  lemma {:induction false} TailShort(octets: seq<byte>, ip: nat, stream: seq<byte>, run: seq<byte>)
    requires |run| < MAX_LIT && Ahead(ip, |stream| + |run| + 1, |run|)
    ensures |TailStream(octets, stream, run)| <= ip + |octets| + (ip + |octets| + 31) / 32
    decreases |octets|
  {
    if octets != [] {
      TailShort(octets[1..], ip + 1, AddedStream(stream, run, octets[0]), AddedRun(run, octets[0]));
    }
  }

  lemma {:induction false} StreamShort(m: Moves, input: seq<byte>, ip: nat, stream: seq<byte>, run: seq<byte>)
    requires |run| < MAX_LIT && Ahead(ip, |stream| + |run| + 1, |run|) && Encode(m, input, ip)
    ensures |Stream(m, stream, run)| <= |input| + (|input| + 31) / 32
    decreases m
  {
    match m
    case Last(octets) => TailShort(octets, ip, stream, run);
    case Literal(octet, rest) =>
      StreamShort(rest, input, ip + 1, AddedStream(stream, run, octet), AddedRun(run, octet));
    case Match(count, dist, rest) =>
      StreamShort(rest, input, ip + count, Closed(stream, run) + Reference(count, dist), []);
  }

  /** A little more room than that is always enough. */
  lemma {:induction false} RoomForAll(m: Moves, input: seq<byte>, ip: nat, op: int, lit: nat, cap: nat)
    requires Ahead(ip, op, lit) && Encode(m, input, ip) && cap >= |input| + |input| / 32 + 4
    ensures Room(m, op, lit, cap)
    decreases m
  {
    match m
    case Last(_) =>
    case Literal(_, rest) =>
      if lit + 1 == MAX_LIT {
        RoomForAll(rest, input, ip + 1, op + 2, 0, cap);
      } else {
        RoomForAll(rest, input, ip + 1, op + 1, lit + 1, cap);
      }
    case Match(count, _, rest) =>
      var op' := if lit == 0 then op - 1 else op;
      RoomForAll(rest, input, ip + count, op' + (if count < 9 then 2 else 3) + 1, 0, cap);
  }

  /** Whatever the table holds, the stream expands to the input and exceeds it by at most one byte in 32, and a little
      more room is enough. */
  lemma PackedExpands(input: seq<byte>, tab: seq<u32>, cap: nat)
    requires |tab| == HSIZE
    ensures Expands(Packed(input, tab), input)
    ensures |Packed(input, tab)| <= |input| + (|input| + 31) / 32
    ensures cap >= |input| + |input| / 32 + 4 ==> HasRoom(input, tab, cap)
  {
    var slots := SlotsOf(input);
    var m := Parse(input, slots, tab, 0);
    ParseFollows(input, slots, tab, 0);
    FollowEncodes(m, input, slots, tab, 0);
    MovesExpand(m, input, cap);
  }

  lemma MovesExpand(m: Moves, input: seq<byte>, cap: nat)
    requires Encode(m, input, 0)
    ensures Expands(Stream(m, [], []), input)
    ensures |Stream(m, [], [])| <= |input| + (|input| + 31) / 32
    ensures cap >= |input| + |input| / 32 + 4 ==> Room(m, 1, 0, cap)
  {
    assert input[..0] == [];
    StreamExpands(m, input, 0, [], []);
    StreamShort(m, input, 0, [], []);
    if cap >= |input| + |input| / 32 + 4 {
      RoomForAll(m, input, 0, 1, 0, cap);
    }
  }

  lemma PackedNonEmpty(input: seq<byte>, tab: seq<u32>)
    requires |tab| == HSIZE && input != []
    ensures Packed(input, tab) != []
  {
    PackedExpands(input, tab, 0);
  }

  // ---------------------------------------------------------------- an input of equal octets

  ghost predicate AllSame(input: seq<byte>) {
    forall k :: 0 <= k < |input| ==> input[k] == input[0]
  }

  lemma SameSlots(input: seq<byte>, i: nat)
    requires AllSame(input) && i < |input| - 2
    ensures SlotsOf(input)[i] == SlotsOf(input)[0]
  {
  }

  lemma SameRepeats(input: seq<byte>, ref: nat, ip: nat, len: nat)
    requires AllSame(input) && ref < ip && ip + len <= |input|
    ensures Repeats(input, ref, ip, len)
  {
  }

  /** Every match then goes as far as the limit. */
  lemma SameExtent(input: seq<byte>, ref: nat, ip: nat)
    requires AllSame(input) && ref < ip && ip + 2 < |input| && Repeats(input, ref, ip, 3)
    ensures Extent(input, ref, ip) == Limit(|input|, ip)
  {
    SameRepeats(input, ref, ip, Limit(|input|, ip));
    ExtentUnique(input, ref, ip, Extent(input, ref, ip), Limit(|input|, ip));
  }

  lemma TwoAdded(stream: seq<byte>, a: byte, b: byte)
    ensures AddedRun([], a) == [a] && AddedRun([a], b) == [a, b]
    ensures AddedStream(stream, [], a) == stream && AddedStream(stream, [a], b) == stream
  {
  }

  lemma TailSize(octets: seq<byte>, stream: seq<byte>)
    requires |octets| <= 2
    ensures |TailStream(octets, stream, [])| <= |stream| + 3
  {
    if |octets| == 1 {
      assert octets[1..] == [];
    } else if |octets| == 2 {
      assert octets[1..][1..] == [];
      TwoAdded(stream, octets[0], octets[1]);
      assert TailStream(octets[1..], stream, [octets[0]]) == TailStream([], stream, [octets[0], octets[1]]);
    }
  }

  /** All positions share a slot. */
  ghost predicate OneSlot(input: seq<byte>, slots: seq<Index>, slot: Index) {
    AllSame(input) && |slots| + 2 >= |input| && forall i :: 0 <= i < |input| - 2 ==> slots[i] == slot
  }

  /** Once the octet before was entered, the match with it is taken, and the octet before the next position is entered
      again. */
  lemma SameStep(input: seq<byte>, slots: seq<Index>, slot: Index, tab: seq<u32>, ip: nat) returns (tab': seq<u32>)
    requires OneSlot(input, slots, slot) && 2 <= ip && ip + 2 < |input| <= 0x1_0000_0000 && |tab| == HSIZE
    requires tab[slot] == ip - 1
    ensures |tab'| == HSIZE
    ensures var next := ip + Limit(|input|, ip);
      && Parse(input, slots, tab, ip) == Match(Limit(|input|, ip), 1, Parse(input, slots, tab', next))
      && (next + 2 < |input| ==> tab'[slot] == next - 1)
  {
    var len := Limit(|input|, ip);
    SameRepeats(input, ip - 1, ip, 3);
    SameExtent(input, ip - 1, ip);
    tab' := Rehashed(slots, |input|, Entered(slots, tab, ip), ip + len);
    ParseHit(input, slots, tab, ip, ip - 1, len, tab');
  }

  /** From a position behind a match on, all moves are matches with the octet before. */
  lemma {:induction false} SameParse(input: seq<byte>, slots: seq<Index>, slot: Index, tab: seq<u32>, ip: nat,
                                     stream: seq<byte>)
    requires OneSlot(input, slots, slot) && 2 <= ip <= |input| <= 0x1_0000_0000 && |tab| == HSIZE
    requires ip + 2 < |input| ==> tab[slot] == ip - 1
    ensures |Stream(Parse(input, slots, tab, ip), stream, [])| <= |stream| + 3 * Matches(|input|, ip) + 3
    decreases |input| - ip
  {
    if ip + 2 >= |input| {
      TailSize(input[ip..], stream);
    } else {
      var len := Limit(|input|, ip);
      var tab' := SameStep(input, slots, slot, tab, ip);
      SameParse(input, slots, slot, tab', ip + len, stream + Reference(len, 1));
      FewerMatches(|input|, ip);
    }
  }

  /** How many matches follow from `ip` on. */
  function Matches(n: nat, ip: nat): nat {
    if ip + 2 >= n then 0 else (n - ip - 2 + 263) / 264
  }

  lemma FewerMatches(n: nat, ip: nat)
    requires ip + 2 < n
    ensures Matches(n, ip + Limit(n, ip)) + 1 <= Matches(n, ip)
  {
  }

  /** The first octet is never copied and the second has none before it that may be. */
  lemma SameStart(input: seq<byte>, slots: seq<Index>, slot: Index, tab: seq<u32>) returns (tab': seq<u32>)
    requires OneSlot(input, slots, slot) && 9 <= |input| && |tab| == HSIZE
    ensures |tab'| == HSIZE && tab'[slot] == 1
    ensures Parse(input, slots, tab, 0) == Literal(input[0], Literal(input[1], Parse(input, slots, tab', 2)))
  {
    ParseMiss(input, slots, tab, 0);
    var tab1 := Entered(slots, tab, 0);
    ParseMiss(input, slots, tab1, 1);
    tab' := Entered(slots, tab1, 1);
  }

  lemma TwoLiterals(a: byte, b: byte, m: Moves)
    ensures Stream(Literal(a, Literal(b, m)), [], []) == Stream(m, [], [a, b])
  {
    TwoAdded([], a, b);
    assert Stream(Literal(b, m), [], [a]) == Stream(m, [], [a, b]);
  }

  lemma StreamOfMatch(stream: seq<byte>, run: seq<byte>, count: Count, dist: Dist, m: Moves)
    requires |run| < MAX_LIT
    ensures Stream(Match(count, dist, m), stream, run) == Stream(m, Closed(stream, run) + Reference(count, dist), [])
  {
  }

  lemma MatchesBound(n: nat)
    requires n >= 9
    ensures Matches(n, 2) <= n / 264 + 1
  {
  }

  /** Equal octets, of any value and with any table: about three bytes for every 264 of them. */
  lemma EqualOctets(input: seq<byte>, tab: seq<u32>)
    requires AllSame(input) && 9 <= |input| <= 0x1_0000_0000 && |tab| == HSIZE
    ensures |Packed(input, tab)| <= 9 + 3 * (|input| / 264)
  {
    var slots := SlotsOf(input);
    forall i | 0 <= i < |input| - 2 ensures slots[i] == slots[0] {
      SameSlots(input, i);
    }
    SamePacked(input, slots, slots[0], tab);
  }

  lemma SamePacked(input: seq<byte>, slots: seq<Index>, slot: Index, tab: seq<u32>)
    requires OneSlot(input, slots, slot) && 9 <= |input| <= 0x1_0000_0000 && |tab| == HSIZE
    ensures |Stream(Parse(input, slots, tab, 0), [], [])| <= 9 + 3 * (|input| / 264)
  {
    var tab2 := SameStart(input, slots, slot, tab);
    TwoLiterals(input[0], input[1], Parse(input, slots, tab2, 2));
    var len := Limit(|input|, 2);
    var tab3 := SameStep(input, slots, slot, tab2, 2);
    StreamOfMatch([], [input[0], input[1]], len, 1, Parse(input, slots, tab3, 2 + len));
    SameParse(input, slots, slot, tab3, 2 + len, Closed([], [input[0], input[1]]) + Reference(len, 1));
    FewerMatches(|input|, 2);
    MatchesBound(|input|);
  }
}
