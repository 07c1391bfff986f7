/** `lzfCompress`: a single pass that keeps one literal run open in the output, whose
    control byte is filled in only when the run is closed. Candidate matches come from a
    hash table that the source never initialises, so the table is a parameter here
    and nothing is assumed about its contents. Positions stand for the source's pointers. */
module LzfCompress {
  import opened Basics
  import opened LzfFormat
  import opened LzfGreedy
  import LzfDecompress

  /** The state between two steps: the last `lit` bytes of the output are the open run, the octets last read, behind one
      reserved byte. */
  ghost predicate Held(input: seq<byte>, out: seq<byte>, ip: int, op: int, lit: int) {
    && 0 <= lit < MAX_LIT && lit <= ip <= |input|
    && lit < op <= |out| + (if lit == 0 then 1 else 0)
    && (lit > 0 ==> out[op - lit..op] == input[ip - lit..ip])
  }

  /** The complete part of the stream, and the open run. */
  ghost function Written(out: seq<byte>, op: int, lit: int): seq<byte>
    requires 0 <= op - lit - 1 <= |out|
  {
    out[..op - lit - 1]
  }

  ghost function Pending(input: seq<byte>, ip: int, lit: int): (run: seq<byte>)
    requires 0 <= lit <= ip <= |input|
    ensures |run| == lit
  {
    input[ip - lit..ip]
  }

  lemma PendingAdded(input: seq<byte>, ip: nat, lit: nat)
    requires lit <= ip < |input| && lit < MAX_LIT
    ensures Pending(input, ip + 1, if lit + 1 == MAX_LIT then 0 else lit + 1)
         == AddedRun(Pending(input, ip, lit), input[ip])
  {
    assert input[ip - lit..ip + 1] == input[ip - lit..ip] + [input[ip]];
  }

  /** With these moves to follow, the whole output will be `goal`. */
  ghost predicate Yields(m: Moves, stream: seq<byte>, run: seq<byte>, goal: seq<byte>) {
    forall s {:trigger IsStream(m, stream, run, s)} :: IsStream(m, stream, run, s) ==> s == goal
  }

  ghost predicate IsStream(m: Moves, stream: seq<byte>, run: seq<byte>, s: seq<byte>) {
    |run| < MAX_LIT && s == Stream(m, stream, run)
  }

  lemma StreamYields(m: Moves, stream: seq<byte>, run: seq<byte>)
    requires |run| < MAX_LIT
    ensures Yields(m, stream, run, Stream(m, stream, run))
  {
  }

  lemma YieldsMatch(m: Moves, stream: seq<byte>, run: seq<byte>, goal: seq<byte>)
    requires m.Match? && |run| < MAX_LIT && Yields(m, stream, run, goal)
    ensures Yields(m.rest, Closed(stream, run) + Reference(m.count, m.dist), [], goal)
  {
    assert IsStream(m, stream, run, Stream(m, stream, run));
  }

  lemma YieldsLiteral(m: Moves, stream: seq<byte>, run: seq<byte>, goal: seq<byte>)
    requires m.Literal? && |run| < MAX_LIT && Yields(m, stream, run, goal)
    ensures Yields(m.rest, AddedStream(stream, run, m.octet), AddedRun(run, m.octet), goal)
  {
    assert IsStream(m, stream, run, Stream(m, stream, run));
  }

  lemma YieldsOctet(input: seq<byte>, ip: nat, stream: seq<byte>, run: seq<byte>, goal: seq<byte>)
    requires ip < |input| && |run| < MAX_LIT && Yields(Last(input[ip..]), stream, run, goal)
    ensures Yields(Last(input[ip + 1..]), AddedStream(stream, run, input[ip]), AddedRun(run, input[ip]), goal)
  {
    TailUnfold(input, ip, stream, run);
    assert IsStream(Last(input[ip..]), stream, run, Stream(Last(input[ip..]), stream, run));
  }

  /** With these moves to follow, all tests of the room will be passed, or not. */
  ghost predicate Fits(m: Moves, op: int, lit: nat, cap: nat, fits: bool) {
    forall b {:trigger IsRoom(m, op, lit, cap, b)} :: IsRoom(m, op, lit, cap, b) ==> b == fits
  }

  ghost predicate IsRoom(m: Moves, op: int, lit: nat, cap: nat, b: bool) {
    b == Room(m, op, lit, cap)
  }

  lemma RoomFits(m: Moves, op: int, lit: nat, cap: nat)
    ensures Fits(m, op, lit, cap, Room(m, op, lit, cap))
  {
  }

  lemma FitsMatch(m: Moves, op: int, lit: nat, cap: nat, fits: bool)
    requires m.Match? && Fits(m, op, lit, cap, fits)
    ensures var op' := if lit == 0 then op - 1 else op;
      if op' + 4 < cap then Fits(m.rest, op' + (if m.count < 9 then 2 else 3) + 1, 0, cap, fits) else !fits
  {
    assert IsRoom(m, op, lit, cap, Room(m, op, lit, cap));
  }

  lemma FitsLiteral(m: Moves, op: int, lit: nat, cap: nat, fits: bool)
    requires m.Literal? && Fits(m, op, lit, cap, fits)
    ensures
      if op >= cap then !fits
      else if lit + 1 == MAX_LIT then Fits(m.rest, op + 2, 0, cap, fits)
      else Fits(m.rest, op + 1, lit + 1, cap, fits)
  {
    assert IsRoom(m, op, lit, cap, Room(m, op, lit, cap));
  }

  lemma FitsLast(m: Moves, op: int, lit: nat, cap: nat, fits: bool)
    requires m.Last? && Fits(m, op, lit, cap, fits)
    ensures fits <==> op + 3 <= cap
  {
    assert IsRoom(m, op, lit, cap, Room(m, op, lit, cap));
  }

  /** These moves are the ones to make from `ip` on. */
  ghost predicate Leads(m: Moves, input: seq<byte>, slots: seq<Index>, tab: seq<u32>, ip: nat) {
    && ip <= |input| <= |slots| + 2 && |tab| == HSIZE
    && forall b {:trigger IsFollow(m, input, slots, tab, ip, b)} :: IsFollow(m, input, slots, tab, ip, b) ==> b
  }

  ghost predicate IsFollow(m: Moves, input: seq<byte>, slots: seq<Index>, tab: seq<u32>, ip: nat, b: bool) {
    ip <= |input| <= |slots| + 2 && |tab| == HSIZE && b == Follow(m, input, slots, tab, ip)
  }

  lemma FollowLeads(m: Moves, input: seq<byte>, slots: seq<Index>, tab: seq<u32>, ip: nat)
    requires ip <= |input| <= |slots| + 2 && |tab| == HSIZE && Follow(m, input, slots, tab, ip)
    ensures Leads(m, input, slots, tab, ip)
  {
  }

  /** The next move is the one the table gives. */
  lemma LeadsNext(m: Moves, input: seq<byte>, slots: seq<Index>, tab: seq<u32>, ip: nat)
    requires Leads(m, input, slots, tab, ip) && ip + 2 < |input|
    ensures var ref := tab[slots[ip]];
      if Hit(input, ref, ip) then
        && m.Match? && m.dist == ip - ref && m.count == Extent(input, ref, ip)
        && Leads(m.rest, input, slots, Rehashed(slots, |input|, Entered(slots, tab, ip), ip + m.count), ip + m.count)
      else
        m.Literal? && m.octet == input[ip] && Leads(m.rest, input, slots, Entered(slots, tab, ip), ip + 1)
  {
    assert IsFollow(m, input, slots, tab, ip, Follow(m, input, slots, tab, ip));
  }

  lemma LeadsLast(m: Moves, input: seq<byte>, slots: seq<Index>, tab: seq<u32>, ip: nat)
    requires Leads(m, input, slots, tab, ip) && |input| <= ip + 2
    ensures m == Last(input[ip..])
  {
    assert IsFollow(m, input, slots, tab, ip, Follow(m, input, slots, tab, ip));
  }

  lemma YieldsEnd(input: seq<byte>, stream: seq<byte>, run: seq<byte>, goal: seq<byte>)
    requires |run| < MAX_LIT && Yields(Last(input[|input|..]), stream, run, goal)
    ensures Closed(stream, run) == goal
  {
    var m := Last(input[|input|..]);
    assert IsStream(m, stream, run, Stream(m, stream, run));
  }

  // ---------------------------------------------------------------- literals

  /** Filling in the control byte turns the run into a block. */
  lemma RunCloses(input: seq<byte>, out: seq<byte>, out': seq<byte>, ip: nat, op: nat, lit: nat)
    requires lit <= ip <= |input| && lit < op <= |out|
    requires out[op - lit..op] == input[ip - lit..ip] && 1 <= lit <= MAX_LIT
    requires out' == out[op - lit - 1 := lit - 1]
    ensures out'[..op] == Closed(out[..op - lit - 1], input[ip - lit..ip])
  {
    assert out'[op - lit..op] == out[op - lit..op];
    assert out'[..op] == out[..op - lit - 1] + [lit - 1] + out'[op - lit..op];
  }

  /** One more literal byte, closing the run when it is full. */
  method PutLiteral(input: array<byte>, out: array<byte>, ip0: nat, op0: nat, lit0: nat)
    returns (ip: nat, op: nat, lit: nat)
    requires input != out
    requires Held(input[..], out[..], ip0, op0, lit0) && ip0 < input.Length && op0 < out.Length
    modifies out
    ensures Held(input[..], out[..], ip, op, lit) && ip == ip0 + 1
    ensures if lit0 + 1 == MAX_LIT then lit == 0 && op == op0 + 2 else lit == lit0 + 1 && op == op0 + 1
    ensures Written(out[..], op, lit)
         == AddedStream(old(Written(out[..], op0, lit0)), Pending(input[..], ip0, lit0), input[ip0])
  {
    ip, op, lit := ip0, op0, lit0;
    lit := lit + 1;
    out[op] := input[ip];
    op, ip := op + 1, ip + 1;
    ghost var before := out[..];
    assert before[..op - lit - 1] == old(out[..op0 - lit0 - 1]);
    assert before[op - lit..op] == old(out[op0 - lit0..op0]) + [input[ip0]];
    assert input[ip - lit..ip] == input[ip0 - lit0..ip0] + [input[ip0]];
    if lit == MAX_LIT {
      out[op - lit - 1] := lit - 1;
      RunCloses(input[..], before, out[..], ip, op, lit);
      lit := 0;
      op := op + 1;
    }
  }

  // ---------------------------------------------------------------- matches

  /** The length of the match at `ip` against `ref`: sixteen unrolled comparisons when there is
      room, then one octet at a time. It is as long as `maxlen` allows. */
  method MatchLength(input: array<byte>, ref: nat, ip: nat, maxlen: nat) returns (len: nat)
    requires Repeats(input[..], ref, ip, 3)
    requires ip + 2 < input.Length
    requires maxlen == if input.Length - ip - 2 > MAX_REF then MAX_REF else input.Length - ip - 2
    ensures len == Extent(input[..], ref, ip)
  {
    len := 2;
    if maxlen > 16 {
      var step := 0;
      while step < 16
        invariant 0 <= step <= 16 && len == 2 + step
        invariant Repeats(input[..], ref, ip, len + 1)
      {
        len := len + 1;
        if input[ref + len] != input[ip + len] {
          ExtentUnique(input[..], ref, ip, len, Extent(input[..], ref, ip));
          return;
        }
        step := step + 1;
      }
    }
    len := len + 1;
    while len < maxlen && input[ref + len] == input[ip + len]
      invariant 3 <= len <= Limit(input.Length, ip) && (maxlen > 16 ==> len >= 19)
      invariant Repeats(input[..], ref, ip, len)
    {
      len := len + 1;
    }
    ExtentUnique(input[..], ref, ip, len, Extent(input[..], ref, ip));
  }

  /** Fills in the control byte of the open run; an empty run gives its reserved byte back. */
  method CloseRun(input: array<byte>, out: array<byte>, ip: nat, op0: nat, lit: nat) returns (op: nat)
    requires input != out
    requires Held(input[..], out[..], ip, op0, lit) && op0 - lit - 1 < out.Length
    modifies out
    ensures op == op0 - (if lit == 0 then 1 else 0)
    ensures out[..op] == Closed(old(Written(out[..], op0, lit)), Pending(input[..], ip, lit))
  {
    op := op0;
    ghost var before := out[..];
    out[op - lit - 1] := (lit - 1) % 256;
    if lit == 0 {
      op := op - 1;
      assert out[..op] == before[..op];
    } else {
      RunCloses(input[..], before, out[..], ip, op, lit);
    }
  }

  /** Writes one back reference of `octets` octets at distance `off + 1`. */
  method WriteReference(out: array<byte>, op0: nat, octets: nat, off: nat) returns (op: nat)
    requires op0 + 3 <= out.Length
    requires 3 <= octets <= MAX_REF && off < MAX_OFF
    modifies out
    ensures op == op0 + |Reference(octets, off + 1)|
    ensures out[..op] == old(out[..op0]) + Reference(octets, off + 1)
  {
    op := op0;
    var len := octets - 2;
    if len < 7 {
      out[op] := off / 256 + len * 32;
      op := op + 1;
    } else {
      out[op] := off / 256 + 7 * 32;
      op := op + 1;
      out[op] := len - 7;
      op := op + 1;
    }
    out[op] := off % 256;
    op := op + 1;
  }

  /** Closes the open run and writes the back reference, then opens a new run. */
  method PutReference(input: array<byte>, out: array<byte>, ip0: nat, op0: nat, lit: nat, ref: nat, octets: nat)
    returns (ip: nat, op: nat)
    requires input != out
    requires Held(input[..], out[..], ip0, op0, lit)
    requires op0 - (if lit == 0 then 1 else 0) + 3 + 1 < out.Length
    requires ref < ip0 && ip0 + octets <= input.Length && 3 <= octets <= MAX_REF && ip0 - ref <= MAX_OFF
    modifies out
    ensures ip == ip0 + octets && Held(input[..], out[..], ip, op, 0)
    ensures op == op0 - (if lit == 0 then 1 else 0) + (if octets < 9 then 2 else 3) + 1
    ensures Written(out[..], op, 0)
         == Closed(old(Written(out[..], op0, lit)), Pending(input[..], ip0, lit)) + Reference(octets, ip0 - ref)
  {
    op := CloseRun(input, out, ip0, op0, lit);
    op := WriteReference(out, op, octets, ip0 - ref - 1);
    NewRun(out[..], op);
    ip, op := ip0 + octets, op + 1;
  }

  /** A byte is reserved for the next run. */
  lemma NewRun(out: seq<byte>, op: nat)
    requires op <= |out|
    ensures Written(out, op + 1, 0) == out[..op]
  {
  }

  /** A found match: refuses when even the exact test leaves no room, otherwise extends the match as far as it goes and
      writes it. */
  method PutMatch(input: array<byte>, out: array<byte>, ip0: nat, op0: nat, lit: nat, ref: nat)
    returns (room: bool, ip: nat, op: nat)
    requires input != out
    requires Held(input[..], out[..], ip0, op0, lit)
    requires ip0 + 2 < input.Length && Hit(input[..], ref, ip0)
    modifies out
    ensures room <==> op0 - (if lit == 0 then 1 else 0) + 3 + 1 < out.Length
    ensures room ==> ip == ip0 + Extent(input[..], ref, ip0) && Held(input[..], out[..], ip, op, 0)
    ensures room ==> var len := Extent(input[..], ref, ip0);
      && op == op0 - (if lit == 0 then 1 else 0) + (if len < 9 then 2 else 3) + 1
      && Written(out[..], op, 0)
         == Closed(old(Written(out[..], op0, lit)), Pending(input[..], ip0, lit)) + Reference(len, ip0 - ref)
  {
    var inEnd, outEnd := input.Length, out.Length;
    ip, op := ip0, op0;
    var len := 2;
    var maxlen := inEnd - ip - len;
    maxlen := if maxlen > MAX_REF then MAX_REF else maxlen;
    if op + 3 + 1 >= outEnd {
      if op - (if lit == 0 then 1 else 0) + 3 + 1 >= outEnd {
        return false, ip, op;
      }
    }
    len := MatchLength(input, ref, ip, maxlen);
    ip, op := PutReference(input, out, ip, op, lit, ref, len);
    room := true;
  }

  // ---------------------------------------------------------------- the end of the input

  /** One of the last octets. */
  method PutTailOctet(input: array<byte>, out: array<byte>, ip0: nat, op0: nat, lit0: nat, ghost goal: seq<byte>)
    returns (ip: nat, op: nat, lit: nat)
    requires input != out && Held(input[..], out[..], ip0, op0, lit0) && ip0 < input.Length && op0 < out.Length
    requires Yields(Last(input[ip0..]), Written(out[..], op0, lit0), Pending(input[..], ip0, lit0), goal)
    modifies out
    ensures Held(input[..], out[..], ip, op, lit) && ip == ip0 + 1
    ensures if lit0 + 1 == MAX_LIT then lit == 0 && op == op0 + 2 else lit == lit0 + 1 && op == op0 + 1
    ensures Yields(Last(input[ip..]), Written(out[..], op, lit), Pending(input[..], ip, lit), goal)
  {
    assert input[ip0..] == input[..][ip0..] && input[ip0 + 1..] == input[..][ip0 + 1..];
    YieldsOctet(input[..], ip0, Written(out[..], op0, lit0), Pending(input[..], ip0, lit0), goal);
    PendingAdded(input[..], ip0, lit0);
    ip, op, lit := PutLiteral(input, out, ip0, op0, lit0);
  }

  /** The last octets, at most two of them, go into the open run without further tests. */
  method PutLast(input: array<byte>, out: array<byte>, ip0: nat, op0: nat, lit0: nat, ghost goal: seq<byte>)
    returns (op: nat, lit: nat)
    requires input != out
    requires Held(input[..], out[..], ip0, op0, lit0)
    requires input.Length <= ip0 + 2 && op0 + 3 <= out.Length
    requires Yields(Last(input[ip0..]), Written(out[..], op0, lit0), Pending(input[..], ip0, lit0), goal)
    modifies out
    ensures Held(input[..], out[..], input.Length, op, lit) && op - lit - 1 < out.Length
    ensures Closed(Written(out[..], op, lit), Pending(input[..], input.Length, lit)) == goal
  {
    var ip: nat;
    ip, op, lit := ip0, op0, lit0;
    while ip < input.Length
      invariant Held(input[..], out[..], ip, op, lit)
      invariant op + (input.Length - ip) + (if lit + (input.Length - ip) >= MAX_LIT then 1 else 0) <= out.Length
      invariant Yields(Last(input[ip..]), Written(out[..], op, lit), Pending(input[..], ip, lit), goal)
    {
      ip, op, lit := PutTailOctet(input, out, ip, op, lit, goal);
    }
    assert input[ip..] == input[..][input.Length..];
    YieldsEnd(input[..], Written(out[..], op, lit), Pending(input[..], input.Length, lit), goal);
  }

  /** The end of the input: the last octets and the control byte of the open run. */
  method PutTail(input: array<byte>, out: array<byte>, ip0: nat, op0: nat, lit0: nat, ghost goal: seq<byte>)
    returns (op: nat)
    requires input != out
    requires Held(input[..], out[..], ip0, op0, lit0)
    requires input.Length <= ip0 + 2 && op0 + 3 <= out.Length
    requires Yields(Last(input[ip0..]), Written(out[..], op0, lit0), Pending(input[..], ip0, lit0), goal)
    modifies out
    ensures op <= out.Length && out[..op] == goal
  {
    var lit;
    op, lit := PutLast(input, out, ip0, op0, lit0, goal);
    op := CloseRun(input, out, input.Length, op, lit);
  }

  // ---------------------------------------------------------------- the hash table

  /** The test of the position that was kept: the distance is computed in 64 bits. */
  method Matches(input: array<byte>, ip: nat, ref: nat) returns (found: bool)
    requires ip + 2 < input.Length < 0x1_0000_0000_0000_0000 && ref < 0x1_0000_0000
    ensures found <==> Hit(input[..], ref, ip)
  {
    var off := (ip - ref - 1) % 0x1_0000_0000_0000_0000;
    Distance(ip, ref);
    found := off < MAX_OFF && ref > 0
      && input[ref + 2] == input[ip + 2]
      && First(input[ref + 1], input[ref]) == First(input[ip + 1], input[ip]);
    if Repeats(input[..], ref, ip, 3) && ip - ref <= MAX_OFF {
      assert input[..][ip] == input[..][ref] && input[..][ip + 1] == input[..][ref + 1];
      assert input[..][ip + 2] == input[..][ref + 2];
    }
  }

  lemma Distance(ip: nat, ref: nat)
    requires ip < 0x1_0000_0000_0000_0000 && ref < 0x1_0000_0000
    ensures (ip - ref - 1) % 0x1_0000_0000_0000_0000 < MAX_OFF <==> ref < ip && ip - ref <= MAX_OFF
  {
    if ip <= ref {
      assert (ip - ref - 1) % 0x1_0000_0000_0000_0000 == 0x1_0000_0000_0000_0000 + ip - ref - 1;
    }
  }

  /** Enters a position under the slot of its three octets. */
  method Enter(input: array<byte>, ghost slots: seq<Index>, htab: array<u32>, ip: nat, hval0: u32) returns (hval: u32)
    requires input as object != htab && htab.Length == HSIZE && Slotted(input[..], slots)
    requires ip + 2 < input.Length && Rolled(hval0, input[..], ip)
    modifies htab
    ensures Rolled(hval, input[..], ip + 1) && htab[..] == Entered(slots, old(htab[..]), ip)
  {
    SlotOfRolled(hval0, input[..], ip);
    assert slots[ip] == SlotAt(input[..], ip);
    hval := Next(hval0, input[ip + 2]);
    htab[Idx(hval)] := ip % 0x1_0000_0000;
  }

  /** The position kept in the slot of the three octets at `ip`. */
  method Kept(input: array<byte>, ghost slots: seq<Index>, htab: array<u32>, ip: nat, hval0: u32) returns (ref: nat)
    requires htab.Length == HSIZE && Slotted(input[..], slots)
    requires ip + 2 < input.Length && Rolled(hval0, input[..], ip)
    ensures ref == htab[slots[ip]]
  {
    SlotOfRolled(hval0, input[..], ip);
    assert slots[ip] == SlotAt(input[..], ip);
    ref := htab[Idx(Next(hval0, input[ip + 2]))];
  }

  /** Hashes the three octets at `ip`, replaces the position kept in their slot, and tests the
      old one: it must be near, not the first octet, and start the same three octets. */
  method Lookup(input: array<byte>, ghost slots: seq<Index>, htab: array<u32>, ip: nat, hval0: u32)
    returns (hval: u32, ref: nat, found: bool)
    requires input as object != htab && htab.Length == HSIZE && Slotted(input[..], slots)
    requires ip + 2 < input.Length < 0x1_0000_0000_0000_0000 && Rolled(hval0, input[..], ip)
    modifies htab
    ensures Rolled(hval, input[..], ip + 1)
    ensures ref == old(htab[slots[ip]]) && htab[..] == Entered(slots, old(htab[..]), ip)
    ensures found <==> Hit(input[..], ref, ip)
  {
    ref := Kept(input, slots, htab, ip, hval0);
    hval := Enter(input, slots, htab, ip, hval0);
    found := Matches(input, ip, ref);
  }

  /** Enters the two last positions of a match into the table, each under the slot of its own three octets
      and the later one last, and leaves the rolling hash ready for the position behind the match. */
  method Rehash(input: array<byte>, ghost slots: seq<Index>, htab: array<u32>, ip: nat) returns (hval: u32)
    requires input as object != htab && htab.Length == HSIZE && Slotted(input[..], slots)
    requires ip + 3 < input.Length
    modifies htab
    ensures Rolled(hval, input[..], ip + 2)
    ensures htab[..] == Entered(slots, Entered(slots, old(htab[..]), ip), ip + 1)
  {
    ghost var text := input[..];
    assert Rolled(First(input[ip], input[ip + 1]), text, ip);
    hval := Enter(input, slots, htab, ip, First(input[ip], input[ip + 1]));
    assert input[..] == text;
    hval := Enter(input, slots, htab, ip + 1, hval);
  }

  /** A match that ends before `ip` enters its last positions, unless the end of the input is near. */
  method RehashBefore(input: array<byte>, ghost slots: seq<Index>, htab: array<u32>, ip: nat, hval0: u32)
    returns (hval: u32)
    requires input as object != htab && htab.Length == HSIZE && Slotted(input[..], slots) && 2 <= ip
    modifies htab
    ensures htab[..] == Rehashed(slots, input.Length, old(htab[..]), ip)
    ensures ip + 2 < input.Length ==> Rolled(hval, input[..], ip)
  {
    hval := hval0;
    if ip < input.Length - 2 {
      hval := Rehash(input, slots, htab, ip - 2);
    }
  }

  // ---------------------------------------------------------------- the loop

  /** The branch for a match, the first of the moves `m`. */
  method TakeMatch(input: array<byte>, ghost slots: seq<Index>, out: array<byte>, htab: array<u32>, ip0: nat, op0: nat,
                   lit: nat, ref: nat, hval0: u32, ghost m: Moves, ghost goal: seq<byte>, ghost fits: bool)
    returns (room: bool, ip: nat, op: nat, hval: u32)
    requires input != out && out as object != htab && input as object != htab && htab.Length == HSIZE
    requires Slotted(input[..], slots) && Held(input[..], out[..], ip0, op0, lit)
    requires ip0 + 2 < input.Length && Hit(input[..], ref, ip0)
    requires m.Match? && m.dist == ip0 - ref && m.count == Extent(input[..], ref, ip0)
    requires Yields(m, Written(out[..], op0, lit), Pending(input[..], ip0, lit), goal)
    requires Fits(m, op0, lit, out.Length, fits)
    modifies out, htab
    ensures room ==> ip == ip0 + m.count && Held(input[..], out[..], ip, op, 0)
    ensures room ==> htab[..] == Rehashed(slots, input.Length, old(htab[..]), ip)
    ensures room && ip + 2 < input.Length ==> Rolled(hval, input[..], ip)
    ensures room ==> Yields(m.rest, Written(out[..], op, 0), Pending(input[..], ip, 0), goal)
    ensures if room then Fits(m.rest, op, 0, out.Length, fits) else !fits
  {
    ghost var text, tab := input[..], htab[..];
    YieldsMatch(m, Written(out[..], op0, lit), Pending(text, ip0, lit), goal);
    FitsMatch(m, op0, lit, out.Length, fits);
    room, ip, op := PutMatch(input, out, ip0, op0, lit, ref);
    hval := hval0;
    assert input[..] == text && htab[..] == tab;
    if room {
      assert Pending(text, ip, 0) == [];
      hval := RehashBefore(input, slots, htab, ip, hval0);
    }
  }

  /** The branch for an octet without a match. */
  method TakeLiteral(input: array<byte>, out: array<byte>, ip0: nat, op0: nat, lit0: nat, ghost m: Moves,
                     ghost goal: seq<byte>, ghost fits: bool)
    returns (room: bool, ip: nat, op: nat, lit: nat)
    requires input != out && Held(input[..], out[..], ip0, op0, lit0) && ip0 < input.Length
    requires m.Literal? && m.octet == input[ip0]
    requires Yields(m, Written(out[..], op0, lit0), Pending(input[..], ip0, lit0), goal)
    requires Fits(m, op0, lit0, out.Length, fits)
    modifies out
    ensures room ==> ip == ip0 + 1 && Held(input[..], out[..], ip, op, lit)
    ensures room ==> Yields(m.rest, Written(out[..], op, lit), Pending(input[..], ip, lit), goal)
    ensures if room then Fits(m.rest, op, lit, out.Length, fits) else !fits
  {
    FitsLiteral(m, op0, lit0, out.Length, fits);
    if op0 >= out.Length {
      return false, ip0, op0, lit0;
    }
    ghost var text := input[..];
    YieldsLiteral(m, Written(out[..], op0, lit0), Pending(text, ip0, lit0), goal);
    PendingAdded(text, ip0, lit0);
    ip, op, lit := PutLiteral(input, out, ip0, op0, lit0);
    assert input[..] == text;
    room := true;
  }

  /** One round of the loop of `lzfCompress`, which refuses when there is no room: it makes the first of the moves. What
      the whole output will be does not change, and neither does whether the tests still to come are passed. */
  method Round(input: array<byte>, ghost slots: seq<Index>, out: array<byte>, htab: array<u32>, ip0: nat, op0: nat,
               lit0: nat, hval0: u32, ghost m0: Moves, ghost goal: seq<byte>, ghost fits: bool)
    returns (room: bool, ip: nat, op: nat, lit: nat, hval: u32, ghost m: Moves)
    requires input != out && out as object != htab && input as object != htab && htab.Length == HSIZE
    requires ip0 + 2 < input.Length < 0x1_0000_0000_0000_0000 && Rolled(hval0, input[..], ip0)
    requires Slotted(input[..], slots) && Held(input[..], out[..], ip0, op0, lit0)
    requires Leads(m0, input[..], slots, htab[..], ip0)
    requires Yields(m0, Written(out[..], op0, lit0), Pending(input[..], ip0, lit0), goal)
    requires Fits(m0, op0, lit0, out.Length, fits)
    modifies out, htab
    ensures room ==> ip0 < ip && Held(input[..], out[..], ip, op, lit) && Leads(m, input[..], slots, htab[..], ip)
    ensures room && ip + 2 < input.Length ==> Rolled(hval, input[..], ip)
    ensures room ==> Yields(m, Written(out[..], op, lit), Pending(input[..], ip, lit), goal)
    ensures if room then Fits(m, op, lit, out.Length, fits) else !fits
  {
    ghost var text, before := input[..], out[..];
    var ref, found;
    LeadsNext(m0, text, slots, htab[..], ip0);
    hval, ref, found := Lookup(input, slots, htab, ip0, hval0);
    assert input[..] == text && out[..] == before;
    m := m0;
    if found {
      m := m0.rest;
      room, ip, op, hval := TakeMatch(input, slots, out, htab, ip0, op0, lit0, ref, hval, m0, goal, fits);
      lit := 0;
    } else {
      m := m0.rest;
      ghost var tab := htab[..];
      room, ip, op, lit := TakeLiteral(input, out, ip0, op0, lit0, m0, goal, fits);
      assert htab[..] == tab;
    }
    assert input[..] == text;
  }

  /** The loop of `lzfCompress`. */
  method Rounds(input: array<byte>, ghost slots: seq<Index>, out: array<byte>, htab: array<u32>, ghost m0: Moves)
    returns (room: bool, ip: nat, op: nat, lit: nat)
    requires input != out && out as object != htab && input as object != htab && htab.Length == HSIZE
    requires 0 < input.Length < 0x1_0000_0000_0000_0000 && out.Length > 0
    requires Slotted(input[..], slots) && Leads(m0, input[..], slots, htab[..], 0)
    modifies out, htab
    ensures room ==> Held(input[..], out[..], ip, op, lit) && input.Length <= ip + 2
    ensures room ==>
      Yields(Last(input[ip..]), Written(out[..], op, lit), Pending(input[..], ip, lit), Stream(m0, [], []))
    ensures Room(m0, 1, 0, out.Length) <==> room && op + 3 <= out.Length
  {
    var inEnd := input.Length;
    ghost var text, m, goal, fits := input[..], m0, Stream(m0, [], []), Room(m0, 1, 0, out.Length);
    ip, op, lit := 0, 1, 0;
    // A one-byte input has no second byte: the source reads past its end and ignores the value.
    var second: byte := *;
    if inEnd > 1 {
      second := input[1];
    }
    var hval := First(input[0], second);
    assert Written(out[..], 1, 0) == [] == Pending(text, 0, 0);
    StreamYields(m0, [], []);
    RoomFits(m0, 1, 0, out.Length);
    while ip < inEnd - 2
      invariant input[..] == text && Held(text, out[..], ip, op, lit) && Leads(m, text, slots, htab[..], ip)
      invariant ip < inEnd - 2 ==> Rolled(hval, text, ip)
      invariant Yields(m, Written(out[..], op, lit), Pending(text, ip, lit), goal)
      invariant Fits(m, op, lit, out.Length, fits)
      decreases inEnd - ip
    {
      room, ip, op, lit, hval, m := Round(input, slots, out, htab, ip, op, lit, hval, m, goal, fits);
      if !room {
        return;
      }
    }
    LeadsLast(m, text, slots, htab[..], ip);
    FitsLast(m, op, lit, out.Length, fits);
    room := true;
  }

  /** `lzfCompress`. Whatever the hash table holds, a non-zero result is the length of a stream that expands to exactly
      the input; it exceeds the input by at most one byte in 32, and it is found whenever the output buffer has that
      much room and a little more. The stream is the one of the moves that the table gives: equal octets become
      about three bytes for every 264 of them. */
  method Compress(input: array<byte>, out: array<byte>, htab: array<u32>) returns (r: nat)
    requires input != out && out as object != htab && input as object != htab
    requires input.Length < 0x1_0000_0000_0000_0000
    requires htab.Length == HSIZE
    modifies out, htab
    ensures r <= out.Length
    ensures r > 0 ==> Expands(out[..r], input[..])
    ensures r > 0 ==> r <= input.Length + (input.Length + 31) / 32
    ensures input.Length > 0 && out.Length >= input.Length + input.Length / 32 + 4 ==> r > 0
    ensures r > 0 <==> input.Length > 0 && out.Length > 0 && HasRoom(input[..], old(htab[..]), out.Length)
    ensures r > 0 ==> out[..r] == Packed(input[..], old(htab[..]))
    ensures AllSame(input[..]) && 9 <= input.Length <= 0x1_0000_0000 && out.Length >= 13 + 3 * (input.Length / 264) ==>
      0 < r <= 9 + 3 * (input.Length / 264)
  {
    PackedExpands(input[..], htab[..], out.Length);
    if AllSame(input[..]) && 9 <= input.Length <= 0x1_0000_0000 {
      EqualOctets(input[..], htab[..]);
      if out.Length >= 13 + 3 * (input.Length / 264) {
        PackedHasRoom(input[..], htab[..], out.Length);
      }
    }
    r := Pack(input, out, htab);
  }

  /** The body, against the moves alone. */
  method Pack(input: array<byte>, out: array<byte>, htab: array<u32>) returns (r: nat)
    requires input != out && out as object != htab && input as object != htab
    requires input.Length < 0x1_0000_0000_0000_0000 && htab.Length == HSIZE
    modifies out, htab
    ensures r <= out.Length
    ensures r > 0 <==> input.Length > 0 && out.Length > 0 && HasRoom(input[..], old(htab[..]), out.Length)
    ensures r > 0 ==> out[..r] == Packed(input[..], old(htab[..]))
  {
    if input.Length == 0 || out.Length == 0 {
      return 0;
    }
    ghost var text, slots := input[..], SlotsOf(input[..]);
    ghost var m0 := Parse(text, slots, htab[..], 0);
    ParseFollows(text, slots, htab[..], 0);
    FollowLeads(m0, text, slots, htab[..], 0);
    PackedNonEmpty(text, htab[..]);
    var room, ip, op, lit := Rounds(input, slots, out, htab, m0);
    if !room {
      return 0;
    }
    if op + 3 > out.Length {
      return 0;
    }
    r := PutTail(input, out, ip, op, lit, Stream(m0, [], []));
  }

  /** The codec's promise: whatever was compressed into `r` bytes, decompressing those bytes
      into any buffer that can hold the input gives back its length and its octets. */
  method RoundTrip(input: array<byte>, packed: array<byte>, htab: array<u32>, restored: array<byte>)
    returns (r: nat, n: nat)
    requires input != packed && input != restored && packed != restored
    requires packed as object != htab && input as object != htab && restored as object != htab
    requires input.Length < 0x1_0000_0000_0000_0000 && htab.Length == HSIZE
    requires restored.Length >= input.Length
    modifies packed, htab, restored
    ensures r > 0 ==> n == input.Length && restored[..n] == input[..]
    ensures input[..] == old(input[..])
  {
    r := Compress(input, packed, htab);
    n := 0;
    if r > 0 {
      var stream := new byte[r](i requires 0 <= i < r <= packed.Length reads packed => packed[i]);
      assert stream[..] == packed[..r];
      DecodeMoreRoom(packed[..r], input.Length, restored.Length, []);
      var err;
      n, err := LzfDecompress.Decompress(stream, restored);
    }
  }
}
