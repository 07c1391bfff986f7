/** `SlotsBitset`: a set of hash slots, its maximal runs, and its text form like "1,2-10,20". Reading a
    text back is specified for every text, and the printed form of a set reads back as that set. */
module Slots {
  import opened Basics
  import opened DecimalText

  const SLOTS_NUM: nat := 16384
  const COMMA: byte := 44

  datatype Range = Range(first: int, last: int)

  // ---------------------------------------------------------------- runs

  /** The bit `i` is added to the runs before it. */
  function Grown(rs: seq<Range>, i: int, grows: bool): seq<Range>
    requires grows ==> rs != []
  {
    if grows then rs[..|rs| - 1] + [Range(rs[|rs| - 1].first, i)] else rs + [Range(i, i)]
  }

  /** The runs of set bits, from left to right. */
  function Runs(b: seq<bool>): (rs: seq<Range>)
    ensures b != [] && b[|b| - 1] ==> rs != [] && rs[|rs| - 1].last == |b| - 1
  {
    if b == [] then []
    else
      var front, i := b[..|b| - 1], |b| - 1;
      if b[i] then Grown(Runs(front), i, front != [] && front[i - 1]) else Runs(front)
  }

  predicate Holds(r: Range, i: int) {
    r.first <= i <= r.last
  }

  ghost predicate Covered(rs: seq<Range>, i: int) {
    exists k :: 0 <= k < |rs| && Holds(rs[k], i)
  }

  /** A run is not empty, lies in the set, and is followed by a gap before the next one. */
  ghost predicate InOrder(rs: seq<Range>, n: int) {
    && (forall k :: 0 <= k < |rs| ==> 0 <= rs[k].first <= rs[k].last < n)
    && forall j, k :: 0 <= j < k < |rs| ==> rs[j].last + 1 < rs[k].first
  }

  /** The runs together are the set. */
  ghost predicate RunsOf(b: seq<bool>, rs: seq<Range>) {
    && InOrder(rs, |b|)
    && forall i :: 0 <= i < |b| ==> (b[i] <==> Covered(rs, i))
  }

  /** Adding one set bit grows the last run or starts a new one. */
  lemma ShapeGrows(n: int, m: int, rs: seq<Range>, grows: bool)
    requires 0 <= n && m == n + 1 && InOrder(rs, n) && (grows ==> rs != [] && rs[|rs| - 1].last == n - 1)
    requires !grows && rs != [] ==> rs[|rs| - 1].last < n - 1
    ensures InOrder(Grown(rs, n, grows), m)
  {
  }

  lemma CoverGrows(n: int, rs: seq<Range>, grows: bool, j: int)
    requires 0 <= n && InOrder(rs, n) && (grows ==> rs != [] && rs[|rs| - 1].last == n - 1)
    ensures Covered(Grown(rs, n, grows), j) <==> Covered(rs, j) || j == n
  {
    var ts := Grown(rs, n, grows);
    if Covered(rs, j) {
      var k :| 0 <= k < |rs| && Holds(rs[k], j);
      assert Holds(ts[k], j);
    }
    if j == n {
      assert Holds(ts[|ts| - 1], j);
    }
    if Covered(ts, j) {
      var k :| 0 <= k < |ts| && Holds(ts[k], j);
      assert k < |ts| - 1 ==> ts[k] == rs[k];
      assert grows && k == |ts| - 1 && j < n ==> Holds(rs[k], j);
    }
  }

  lemma NotBeyond(rs: seq<Range>, n: int)
    requires InOrder(rs, n)
    ensures !Covered(rs, n)
  {
  }

  lemma StaysInOrder(rs: seq<Range>, n: int, m: int)
    requires InOrder(rs, n) && n <= m
    ensures InOrder(rs, m)
  {
  }

  lemma {:induction false} RunsGrow(b: seq<bool>)
    requires b != []
    ensures var front, i := b[..|b| - 1], |b| - 1;
      Runs(b) == if b[i] then Grown(Runs(front), i, front != [] && front[i - 1]) else Runs(front)
  {
  }

  /** The runs are in order, and the last one reaches the end exactly when the last bit is set. */
  ghost predicate Ordered(b: seq<bool>, rs: seq<Range>) {
    && InOrder(rs, |b|)
    && (b != [] && b[|b| - 1] ==> rs != [])
    && (rs != [] ==> b != [] && (rs[|rs| - 1].last == |b| - 1 <==> b[|b| - 1]))
  }

  lemma RunsStep(b: seq<bool>, front: seq<bool>, rs: seq<Range>)
    requires b != [] && front == b[..|b| - 1] && Ordered(front, rs)
    ensures var i := |b| - 1; Ordered(b, if b[i] then Grown(rs, i, front != [] && front[i - 1]) else rs)
  {
    var i := |b| - 1;
    if b[i] {
      ShapeGrows(i, |b|, rs, front != [] && front[i - 1]);
    } else {
      StaysInOrder(rs, i, |b|);
    }
  }

  lemma {:induction false} RunsInOrder(b: seq<bool>)
    ensures Ordered(b, Runs(b))
  {
    if b != [] {
      var front := b[..|b| - 1];
      RunsInOrder(front);
      RunsGrow(b);
      RunsStep(b, front, Runs(front));
    }
  }

  lemma {:induction false} RunsCover(b: seq<bool>, j: nat)
    requires j < |b|
    ensures b[j] <==> Covered(Runs(b), j)
  {
    var front, i := b[..|b| - 1], |b| - 1;
    RunsInOrder(front);
    if b[i] {
      CoverGrows(i, Runs(front), front != [] && front[i - 1], j);
    }
    if j == i {
      NotBeyond(Runs(front), i);
    } else {
      RunsCover(front, j);
    }
  }

  /** They are the maximal runs. */
  lemma RunsAreMaximal(b: seq<bool>)
    ensures RunsOf(b, Runs(b))
    ensures Runs(b) != [] ==> (Runs(b)[|Runs(b)| - 1].last == |b| - 1 <==> b[|b| - 1])
  {
    RunsInOrder(b);
    forall j | 0 <= j < |b| ensures b[j] <==> Covered(Runs(b), j) {
      RunsCover(b, j);
    }
  }

  // ---------------------------------------------------------------- text

  function RunText(r: Range): (s: seq<byte>)
    ensures s != []
  {
    if r.first == r.last then Render(r.first) else Render(r.first) + [MINUS] + Render(r.last)
  }

  function Text(rs: seq<Range>): (s: seq<byte>)
    ensures s == [] <==> rs == []
    decreases |rs|, 0
  {
    if rs == [] then []
    else Upto(rs[..|rs| - 1]) + RunText(rs[|rs| - 1])
  }

  /** The text before the next run. */
  function Upto(rs: seq<Range>): seq<byte>
    decreases |rs|, 1
  {
    if rs == [] then [] else Text(rs) + [COMMA]
  }

  /** The text while the last run is still growing. */
  function OpenText(rs: seq<Range>): (s: seq<byte>)
    requires rs != []
    ensures s != []
  {
    Upto(rs[..|rs| - 1]) + Render(rs[|rs| - 1].first)
  }

  lemma Regroup(a: seq<byte>, b: seq<byte>, c: seq<byte>, d: seq<byte>)
    ensures a + (b + c + d) == a + b + c + d
  {
  }

  lemma CloseRun(rs: seq<Range>)
    requires rs != []
    ensures var r := rs[|rs| - 1];
      Text(rs) == if r.first == r.last then OpenText(rs) else OpenText(rs) + [MINUS] + Render(r.last)
  {
    var r := rs[|rs| - 1];
    Regroup(Upto(rs[..|rs| - 1]), Render(r.first), [MINUS], Render(r.last));
  }

  /** How the runs grow by one bit. */
  lemma NextRun(b: seq<bool>, i: nat)
    requires i < |b|
    ensures var rs, ts := Runs(b[..i]), Runs(b[..i + 1]);
      if !b[i] then ts == rs
      else (i > 0 && b[i - 1] ==> rs != []) && ts == Grown(rs, i, i > 0 && b[i - 1])
  {
    assert b[..i + 1][..i] == b[..i];
  }

  /** A grown run prints the same while it is open. */
  lemma OpenGrows(rs: seq<Range>, last: int)
    requires rs != []
    ensures OpenText(rs[..|rs| - 1] + [Range(rs[|rs| - 1].first, last)]) == OpenText(rs)
  {
    var ts := rs[..|rs| - 1] + [Range(rs[|rs| - 1].first, last)];
    assert ts[..|ts| - 1] == rs[..|rs| - 1];
  }

  lemma OpenStarts(rs: seq<Range>, i: int)
    ensures OpenText(rs + [Range(i, i)]) == Upto(rs) + Render(i)
  {
    assert (rs + [Range(i, i)])[..|rs|] == rs;
  }

  // ---------------------------------------------------------------- reading

  /** The split of a text at a byte; empty pieces are kept. */
  function Pieces(s: seq<byte>, c: byte): (ps: seq<seq<byte>>)
    ensures ps != []
  {
    if s == [] then [[]]
    else if s[0] == c then [[]] + Pieces(s[1..], c)
    else var ps := Pieces(s[1..], c); [[s[0]] + ps[0]] + ps[1..]
  }

  lemma {:induction false} PiecesAppend(a: seq<byte>, c: byte, t: seq<byte>)
    requires c !in a
    ensures Pieces(a, c) == [a] && Pieces(a + [c] + t, c) == [a] + Pieces(t, c)
  {
    if a == [] {
      assert a + [c] + t == [c] + t && ([c] + t)[1..] == t;
    } else {
      PiecesAppend(a[1..], c, t);
      assert (a + [c] + t)[1..] == a[1..] + [c] + t;
      assert [a[0]] + a[1..] == a;
    }
  }

  /** Putting the pieces together again. */
  lemma {:induction false} PiecesPair(s: seq<byte>, c: byte)
    ensures |Pieces(s, c)| == 1 <==> c !in s
    ensures |Pieces(s, c)| == 1 ==> Pieces(s, c) == [s]
    ensures |Pieces(s, c)| == 2 ==> s == Pieces(s, c)[0] + [c] + Pieces(s, c)[1] && c !in Pieces(s, c)[0]
  {
    if s != [] {
      PiecesPair(s[1..], c);
      assert s == [s[0]] + s[1..];
      var ps := Pieces(s[1..], c);
      if s[0] != c && |ps| == 2 {
        OneInFront(s[0], ps[0], c, ps[1]);
      }
    }
  }

  lemma OneInFront(x: byte, a: seq<byte>, c: byte, b: seq<byte>)
    ensures [x] + (a + [c] + b) == [x] + a + [c] + b
  {
  }

  /** The segment is the text of this range: one number, or two with a minus sign between. */
  ghost predicate Denotes(seg: seq<byte>, r: Range) {
    && 0 <= r.first <= r.last < SLOTS_NUM
    && (seg == Render(r.first) + [MINUS] + Render(r.last) || (r.first == r.last && seg == Render(r.first)))
  }

  lemma NoMinus(n: nat)
    ensures MINUS !in Render(n) && COMMA !in Render(n)
  {
    DigitsAreCanonical(n);
    forall k | 0 <= k < |Render(n)| ensures Render(n)[k] != MINUS && Render(n)[k] != COMMA {
      assert IsDigit(Render(n)[k]);
    }
  }

  /** A segment is the text of at most one range, and it has a minus sign when the text has two numbers. */
  lemma DenotesOne(seg: seq<byte>, r: Range)
    requires Denotes(seg, r)
    ensures Pieces(seg, MINUS) == (if MINUS in seg then [Render(r.first), Render(r.last)] else [Render(r.first)])
    ensures MINUS !in seg ==> r.first == r.last
    ensures COMMA !in seg
  {
    NoMinus(r.first);
    NoMinus(r.last);
    if seg == Render(r.first) + [MINUS] + Render(r.last) {
      PiecesAppend(Render(r.first), MINUS, Render(r.last));
      PiecesAppend(Render(r.last), MINUS, []);
      assert seg[|Render(r.first)|] == MINUS;
    } else {
      PiecesAppend(seg, MINUS, []);
    }
  }

  lemma DenotesUnique(seg: seq<byte>, r: Range, q: Range)
    requires Denotes(seg, r) && Denotes(seg, q)
    ensures r == q
  {
    DenotesOne(seg, r);
    DenotesOne(seg, q);
    RenderIsInjective(r.first, if Pieces(seg, MINUS)[0] == Render(r.first) then q.first else r.first);
    if MINUS in seg {
      assert Pieces(seg, MINUS)[1] == Render(r.last) == Render(q.last);
      RenderIsInjective(r.last, q.last);
    }
  }

  method ParseSegment(seg: seq<byte>) returns (r: Option<Range>)
    ensures r.Some? ==> Denotes(seg, r.value)
    ensures r == None ==> forall q :: !Denotes(seg, q)
  {
    forall q | Denotes(seg, q)
      ensures Pieces(seg, MINUS) == if MINUS in seg then [Render(q.first), Render(q.last)] else [Render(q.first)]
    {
      DenotesOne(seg, q);
    }
    PiecesPair(seg, MINUS);
    if MINUS in seg {
      var pair := Pieces(seg, MINUS);
      if |pair| != 2 {
        return None;
      }
      var n1 := String2ll(pair[0]);
      if n1 == None {
        return None;
      }
      var n2 := String2ll(pair[1]);
      if n2 == None {
        return None;
      }
      Injective(n1.value);
      Injective(n2.value);
      if n1.value > n2.value || !(0 <= n1.value <= n2.value < SLOTS_NUM) {
        return None;
      }
      return Some(Range(n1.value, n2.value));
    }
    var n := String2ll(seg);
    if n == None {
      return None;
    }
    Injective(n.value);
    if !(0 <= n.value < SLOTS_NUM) {
      return None;
    }
    return Some(Range(n.value, n.value));
  }

  lemma Injective(v: int)
    ensures forall w {:trigger Render(w)} :: Render(w) == Render(v) ==> w == v
  {
    forall w {:trigger Render(w)} | Render(w) == Render(v) ensures w == v {
      RenderIsInjective(v, w);
    }
  }

  // ---------------------------------------------------------------- the set

  /** The segments are the texts of these ranges, in this order. */
  ghost predicate Lists(segments: seq<seq<byte>>, rs: seq<Range>) {
    |rs| == |segments| && forall k :: 0 <= k < |rs| ==> Denotes(segments[k], rs[k])
  }

  ghost predicate Disjoint(rs: seq<Range>) {
    forall j, k :: 0 <= j < k < |rs| ==> rs[j].last < rs[k].first || rs[k].last < rs[j].first
  }

  /** No slot is listed twice and every segment is well formed. */
  ghost predicate Readable(s: seq<byte>, rs: seq<Range>) {
    s != [] && Lists(Pieces(s, COMMA), rs) && Disjoint(rs)
  }

  ghost predicate SetIs(bits: seq<bool>, rs: seq<Range>) {
    |bits| == SLOTS_NUM && forall i :: 0 <= i < SLOTS_NUM ==> (bits[i] <==> Covered(rs, i))
  }

  lemma ListsUnique(segments: seq<seq<byte>>, rs: seq<Range>, qs: seq<Range>)
    requires Lists(segments, rs) && Lists(segments, qs)
    ensures rs == qs
  {
    forall k | 0 <= k < |rs| ensures rs[k] == qs[k] {
      DenotesUnique(segments[k], rs[k], qs[k]);
    }
  }

  lemma {:induction false} PiecesSnoc(t: seq<byte>, c: byte, a: seq<byte>)
    requires c !in a
    ensures Pieces(t + [c] + a, c) == Pieces(t, c) + [a]
  {
    if t == [] {
      assert t + [c] + a == [c] + a && ([c] + a)[1..] == a;
      PiecesAppend(a, c, []);
    } else {
      PiecesSnoc(t[1..], c, a);
      assert (t + [c] + a)[1..] == t[1..] + [c] + a;
    }
  }

  /** The printed runs are a readable text of these runs. */
  lemma {:induction false} TextLists(rs: seq<Range>)
    requires rs != [] && InOrder(rs, SLOTS_NUM)
    ensures Lists(Pieces(Text(rs), COMMA), rs)
  {
    var front, r := rs[..|rs| - 1], rs[|rs| - 1];
    assert Denotes(RunText(r), r);
    DenotesOne(RunText(r), r);
    if front == [] {
      assert [] + RunText(r) == RunText(r);
      PiecesAppend(RunText(r), COMMA, []);
    } else {
      TextLists(front);
      PiecesSnoc(Text(front), COMMA, RunText(r));
    }
  }

  class SlotsBitset {
    var bits: seq<bool>

    ghost predicate Valid()
      reads this
    {
      |bits| == SLOTS_NUM
    }

    constructor (bits: seq<bool>)
      requires |bits| == SLOTS_NUM
      ensures Valid() && this.bits == bits
    {
      this.bits := bits;
    }

    /** One round of `toRanges`. */
    method NextRange(i: nat, start: int, result: seq<Range>) returns (start': int, result': seq<Range>)
      requires Valid() && i < SLOTS_NUM && RangesAt(bits, i, start, result)
      ensures RangesAt(bits, i + 1, start', result')
    {
      NextRun(bits, i);
      ghost var rs := Runs(bits[..i]);
      OpenedGrows(rs, i);
      OpenedCloses(rs);
      start', result' := start, result;
      if bits[i] && start == -1 {
        start' := i;
        result' := result' + [Range(i, 0)];
      }
      if !bits[i] {
        if start' != -1 {
          result' := SetLast(result', i - 1);
        }
        start' := -1;
      }
      if bits[i] && i == SLOTS_NUM - 1 {
        OpenedCloses(Runs(bits[..i + 1]));
        result' := SetLast(result', i);
      }
    }

    /** `toRanges`: the maximal runs. */
    method ToRanges() returns (result: seq<Range>)
      requires Valid()
      ensures result == Runs(bits) && RunsOf(bits, result)
    {
      RunsAreMaximal(bits);
      result := [];
      var start := -1;
      var i := 0;
      while i < SLOTS_NUM
        invariant 0 <= i <= SLOTS_NUM && RangesAt(bits, i, start, result)
      {
        start, result := NextRange(i, start, result);
        i := i + 1;
      }
      assert bits[..i] == bits;
    }

    /** One round of `toString`. */
    method NextText(i: nat, start: int, str: seq<byte>) returns (start': int, str': seq<byte>)
      requires Valid() && i < SLOTS_NUM && TextAt(bits, i, start, str)
      ensures TextAt(bits, i + 1, start', str')
    {
      NextRun(bits, i);
      ghost var rs := Runs(bits[..i]);
      start', str' := start, str;
      if bits[i] && start == -1 {
        OpenStarts(rs, i);
        start' := i;
        if str' != [] {
          str' := str' + [COMMA];
        }
        str' := str' + Render(i);
      } else if bits[i] {
        OpenGrows(rs, i);
      }
      if !bits[i] {
        if start' != -1 {
          CloseRun(rs);
        }
        if start' != -1 && start' != i - 1 {
          str' := str' + [MINUS] + Render(i - 1);
        }
        start' := -1;
      }
      if bits[i] && i == SLOTS_NUM - 1 {
        CloseRun(Runs(bits[..i + 1]));
      }
      if bits[i] && i == SLOTS_NUM - 1 && start' != i {
        str' := str' + [MINUS] + Render(i);
      }
    }

    /** `toString`: the text of the maximal runs. */
    method ToString() returns (str: seq<byte>)
      requires Valid()
      ensures str == Text(Runs(bits))
    {
      str := [];
      var start := -1;
      var i := 0;
      TextAtStart(bits);
      while i < SLOTS_NUM
        invariant 0 <= i <= SLOTS_NUM && TextAt(bits, i, start, str)
      {
        start, str := NextText(i, start, str);
        i := i + 1;
      }
      TextAtEnd(bits, start, str);
    }

    /** `loadFromString` succeeds exactly on the readable texts, and then the set is the one listed; a
        failed load leaves the set as it was. */
    method LoadFromString(slots: seq<byte>) returns (ok: bool)
      requires Valid()
      modifies this
      ensures Valid()
      ensures ok ==> exists rs :: Readable(slots, rs) && SetIs(bits, rs)
      ensures !ok ==> bits == old(bits) && forall rs :: !Readable(slots, rs)
    {
      if slots == [] {
        return false;
      }
      var tmp := seq(SLOTS_NUM, _ => false);
      var segments := Pieces(slots, COMMA);
      ghost var found: seq<Range> := [];
      var k := 0;
      while k < |segments|
        invariant 0 <= k <= |segments| && bits == old(bits)
        invariant Lists(segments[..k], found) && Disjoint(found) && SetIs(tmp, found)
      {
        var r := ParseSegment(segments[k]);
        if r == None {
          NotReadable(slots, k);
          return false;
        }
        var fits, tmp' := AddRange(tmp, r.value, found);
        if !fits {
          Clashes(slots, k, found, r.value);
          return false;
        }
        ListsNext(segments, k, found, r.value);
        tmp, found := tmp', found + [r.value];
        k := k + 1;
      }
      assert segments[..k] == segments;
      bits := tmp;
      ok := true;
    }
  }

  /** The inner loop: sets the slots of a range unless one of them is set already. */
  method AddRange(bits: seq<bool>, r: Range, ghost found: seq<Range>) returns (fits: bool, bits': seq<bool>)
    requires SetIs(bits, found) && Disjoint(found) && 0 <= r.first <= r.last < SLOTS_NUM
    requires forall k :: 0 <= k < |found| ==> found[k].first <= found[k].last
    ensures fits ==> SetIs(bits', found + [r]) && Disjoint(found + [r])
    ensures !fits ==> !Disjoint(found + [r])
  {
    bits' := bits;
    var i := r.first;
    while i <= r.last
      invariant r.first <= i <= r.last + 1 && |bits'| == SLOTS_NUM
      invariant forall j :: 0 <= j < SLOTS_NUM ==> bits'[j] == (bits[j] || r.first <= j < i)
      invariant forall j :: r.first <= j < i ==> !bits[j]
    {
      if bits'[i] {
        Overlaps(bits, r, found, i);
        return false, bits';
      }
      bits' := bits'[i := true];
      i := i + 1;
    }
    Apart(bits, r, found);
    forall j | 0 <= j < SLOTS_NUM ensures bits'[j] <==> Covered(found + [r], j) {
      CoveredMore(found, r, j);
    }
    fits := true;
  }

  lemma CoveredMore(found: seq<Range>, r: Range, j: int)
    ensures Covered(found + [r], j) <==> Covered(found, j) || Holds(r, j)
  {
    var more := found + [r];
    if Covered(found, j) {
      var k :| 0 <= k < |found| && Holds(found[k], j);
      assert Holds(more[k], j);
    }
    if Holds(r, j) {
      assert Holds(more[|found|], j);
    }
  }

  lemma Overlaps(bits: seq<bool>, r: Range, found: seq<Range>, i: int)
    requires SetIs(bits, found) && 0 <= i < SLOTS_NUM && bits[i] && Holds(r, i)
    ensures !Disjoint(found + [r])
  {
    var k :| 0 <= k < |found| && Holds(found[k], i);
    var more := found + [r];
    assert more[k] == found[k] && more[|found|] == r;
  }

  lemma Apart(bits: seq<bool>, r: Range, found: seq<Range>)
    requires SetIs(bits, found) && Disjoint(found) && 0 <= r.first <= r.last < SLOTS_NUM
    requires forall k :: 0 <= k < |found| ==> found[k].first <= found[k].last
    requires forall j :: r.first <= j <= r.last ==> !bits[j]
    ensures Disjoint(found + [r])
  {
    forall k | 0 <= k < |found| ensures found[k].last < r.first || r.last < found[k].first {
      var j := if found[k].first < r.first then r.first else found[k].first;
      if j <= r.last {
        assert !bits[j] && !Covered(found, j);
        assert !Holds(found[k], j);
      }
    }
  }

  lemma NotReadable(slots: seq<byte>, k: nat)
    requires k < |Pieces(slots, COMMA)| && forall q :: !Denotes(Pieces(slots, COMMA)[k], q)
    ensures forall rs :: !Readable(slots, rs)
  {
    forall rs: seq<Range> ensures !Lists(Pieces(slots, COMMA), rs) {
      NotListed(Pieces(slots, COMMA), k, rs);
    }
  }

  lemma NotListed(segments: seq<seq<byte>>, k: nat, rs: seq<Range>)
    requires k < |segments| && forall q :: !Denotes(segments[k], q)
    ensures !Lists(segments, rs)
  {
    if |rs| == |segments| {
      assert !Denotes(segments[k], rs[k]);
    }
  }

  lemma ListsNext(segments: seq<seq<byte>>, k: nat, found: seq<Range>, r: Range)
    requires k < |segments| && Lists(segments[..k], found) && Denotes(segments[k], r)
    ensures Lists(segments[..k + 1], found + [r])
  {
    forall j | 0 <= j < k + 1 ensures Denotes(segments[..k + 1][j], (found + [r])[j]) {
      assert j < k ==> segments[..k][j] == segments[j];
    }
  }

  /** Two segments already read have a slot in common, in every reading. */
  lemma Clashes(slots: seq<byte>, k: nat, found: seq<Range>, r: Range)
    requires k < |Pieces(slots, COMMA)| && Lists(Pieces(slots, COMMA)[..k], found)
    requires Denotes(Pieces(slots, COMMA)[k], r)
    requires !Disjoint(found + [r])
    ensures forall rs :: !Readable(slots, rs)
  {
    var segments := Pieces(slots, COMMA);
    ListsNext(segments, k, found, r);
    forall rs | Lists(segments, rs) ensures !Disjoint(rs) {
      assert Lists(segments[..k + 1], rs[..k + 1]);
      ListsUnique(segments[..k + 1], rs[..k + 1], found + [r]);
      PrefixDisjoint(rs, k + 1);
    }
  }

  lemma PrefixDisjoint(rs: seq<Range>, n: nat)
    requires n <= |rs|
    ensures Disjoint(rs) ==> Disjoint(rs[..n])
  {
  }

  /** `result.back().second = last` */
  function SetLast(rs: seq<Range>, last: int): seq<Range>
    requires rs != []
  {
    rs[|rs| - 1 := Range(rs[|rs| - 1].first, last)]
  }

  /** The result while its last run is still growing: its end is not known yet. */
  function Opened(rs: seq<Range>): seq<Range>
    requires rs != []
  {
    SetLast(rs, 0)
  }

  lemma OpenedGrows(rs: seq<Range>, i: int)
    ensures rs != [] ==> Opened(Grown(rs, i, true)) == Opened(rs)
    ensures Opened(Grown(rs, i, false)) == rs + [Range(i, 0)]
  {
  }

  lemma OpenedCloses(rs: seq<Range>)
    ensures rs != [] ==> SetLast(Opened(rs), rs[|rs| - 1].last) == rs
  {
  }

  /** Before bit `i`: `start` is the beginning of a run that is still growing, or -1. At the end, the
      last run has been closed. */
  ghost predicate StartAt(b: seq<bool>, i: nat, start: int)
    requires i <= |b|
  {
    if start == -1 then i == 0 || !b[i - 1]
    else i > 0 && b[i - 1] && Runs(b[..i]) != [] && Runs(b[..i])[|Runs(b[..i])| - 1] == Range(start, i - 1)
  }

  ghost predicate RangesAt(b: seq<bool>, i: nat, start: int, result: seq<Range>)
    requires i <= |b|
  {
    && StartAt(b, i, start)
    && result == if start == -1 || i == SLOTS_NUM then Runs(b[..i]) else Opened(Runs(b[..i]))
  }

  ghost predicate TextAt(b: seq<bool>, i: nat, start: int, str: seq<byte>)
    requires i <= |b|
  {
    && StartAt(b, i, start)
    && str == if start == -1 || i == SLOTS_NUM then Text(Runs(b[..i])) else OpenText(Runs(b[..i]))
  }

  /** Three runs, and the text "1,3-10,20" of them. */
  lemma Example(rs: seq<Range>)
    requires rs == [Range(1, 1), Range(3, 10), Range(20, 20)]
    ensures Text(rs) == [49, 44, 51, 45, 49, 48, 44, 50, 48]
  {
    assert rs[..2] == [rs[0], rs[1]] && rs[..2][..1] == [rs[0]] && rs[..1][..0] == [];
    assert Text([rs[0]]) == [49];
    assert Text([rs[0], rs[1]]) == [49, 44, 51, 45, 49, 48];
  }

  lemma TextAtStart(b: seq<bool>)
    ensures TextAt(b, 0, -1, [])
  {
    assert b[..0] == [];
  }

  lemma TextAtEnd(b: seq<bool>, start: int, str: seq<byte>)
    requires |b| == SLOTS_NUM && TextAt(b, SLOTS_NUM, start, str)
    ensures str == Text(Runs(b))
  {
    assert b[..SLOTS_NUM] == b;
  }

  /** What a non-empty set prints reads back as that set. */
  method RoundTrip(bits: seq<bool>) returns (again: seq<bool>)
    requires |bits| == SLOTS_NUM && true in bits
    ensures again == bits
  {
    var from := new SlotsBitset(bits);
    var text := from.ToString();
    RunsReadable(bits);
    var to := new SlotsBitset(seq(SLOTS_NUM, _ => false));
    var ok := to.LoadFromString(text);
    again := to.bits;
    ghost var rs :| Readable(text, rs) && SetIs(again, rs);
    ListsUnique(Pieces(text, COMMA), rs, Runs(bits));
  }

  lemma RunsReadable(bits: seq<bool>)
    requires |bits| == SLOTS_NUM && true in bits
    ensures Readable(Text(Runs(bits)), Runs(bits)) && SetIs(bits, Runs(bits))
  {
    RunsAreMaximal(bits);
    var i :| 0 <= i < SLOTS_NUM && bits[i];
    assert Covered(Runs(bits), i);
    TextLists(Runs(bits));
  }
}
