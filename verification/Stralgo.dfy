/** `Stralgo::lcs`: longest common subsequence by a table of lengths, a walk back through
    the table, and the matching ranges the walk passes.

    The source addresses its flat table with 32-bit arithmetic. The model keeps that: two cells share an
    address when their linear positions are equal modulo 2^32. */
module Stralgo {

  const TWO32 := 0x1_0000_0000

  type u32 = x: int | 0 <= x < TWO32

  // ---------------------------------------------------------------- meaning

  /** `z` is spelled by the characters of `s` at the increasing positions `at`, all below `n`. */
  ghost predicate Embeds(z: string, s: string, n: nat, at: seq<nat>) {
    && n <= |s| && |at| == |z|
    && (forall k :: 0 <= k < |at| ==> at[k] < n && s[at[k]] == z[k])
    && forall k, l :: 0 <= k < l < |at| ==> at[k] < at[l]
  }

  ghost predicate Subsequence(z: string, s: string, n: nat) {
    exists at: seq<nat> :: Embeds(z, s, n, at)
  }

  /** `z` is a common subsequence of the prefixes `a[..i]` and `b[..j]`. */
  ghost predicate Common(z: string, a: string, i: nat, b: string, j: nat) {
    Subsequence(z, a, i) && Subsequence(z, b, j)
  }

  /** `n` is the greatest length of a common subsequence of the two prefixes. */
  ghost predicate LongestLength(a: string, i: nat, b: string, j: nat, n: nat) {
    && (exists z :: Common(z, a, i, b, j) && |z| == n)
    && forall z :: Common(z, a, i, b, j) ==> |z| <= n
  }

  /** The recurrence the table is filled by. */
  function Length(a: string, i: nat, b: string, j: nat): (n: nat)
    requires i <= |a| && j <= |b|
    ensures n <= i && n <= j
    decreases i + j
  {
    if i == 0 || j == 0 then 0
    else if a[i - 1] == b[j - 1] then Length(a, i - 1, b, j - 1) + 1
    else
      var up, left := Length(a, i - 1, b, j), Length(a, i, b, j - 1);
      if up > left then up else left
  }

  lemma EmbedsWider(z: string, s: string, n: nat, m: nat)
    requires Subsequence(z, s, n) && n <= m <= |s|
    ensures Subsequence(z, s, m)
  {
    var at: seq<nat> :| Embeds(z, s, n, at);
    assert Embeds(z, s, m, at);
  }

  /** Dropping the last character frees the last position. */
  lemma EmbedsDropLast(z: string, s: string, n: nat)
    requires Subsequence(z, s, n) && z != []
    ensures n > 0 && Subsequence(z[..|z| - 1], s, n - 1)
  {
    var at: seq<nat> :| Embeds(z, s, n, at);
    var at' := at[..|at| - 1];
    assert at[|at| - 1] < n;
    forall k | 0 <= k < |at'| ensures at'[k] < n - 1 {
      assert at[k] < at[|at| - 1];
    }
    assert Embeds(z[..|z| - 1], s, n - 1, at');
  }

  /** A last character that differs from the last of the prefix leaves that position unused. */
  lemma EmbedsAvoids(z: string, s: string, n: nat)
    requires Subsequence(z, s, n) && 0 < n <= |s|
    requires z != [] ==> z[|z| - 1] != s[n - 1]
    ensures Subsequence(z, s, n - 1)
  {
    var at: seq<nat> :| Embeds(z, s, n, at);
    forall k | 0 <= k < |at| ensures at[k] < n - 1 {
      if k < |at| - 1 {
        assert at[k] < at[|at| - 1] < n;
      } else {
        assert s[at[k]] == z[k];
      }
    }
    assert Embeds(z, s, n - 1, at);
  }

  lemma EmbedsAppend(z: string, s: string, n: nat, c: char)
    requires Subsequence(z, s, n) && n < |s| && s[n] == c
    ensures Subsequence(z + [c], s, n + 1)
  {
    var at: seq<nat> :| Embeds(z, s, n, at);
    assert Embeds(z + [c], s, n + 1, at + [n]);
  }

  lemma {:induction false} LengthIsBound(a: string, i: nat, b: string, j: nat, z: string)
    requires i <= |a| && j <= |b| && Common(z, a, i, b, j)
    ensures |z| <= Length(a, i, b, j)
    decreases i + j
  {
    if z == [] {
    } else {
      EmbedsDropLast(z, a, i);
      EmbedsDropLast(z, b, j);
      if a[i - 1] == b[j - 1] {
        LengthIsBound(a, i - 1, b, j - 1, z[..|z| - 1]);
      } else if z[|z| - 1] != a[i - 1] {
        EmbedsAvoids(z, a, i);
        LengthIsBound(a, i - 1, b, j, z);
      } else {
        EmbedsAvoids(z, b, j);
        LengthIsBound(a, i, b, j - 1, z);
      }
    }
  }

  lemma {:induction false} LengthIsReached(a: string, i: nat, b: string, j: nat) returns (z: string)
    requires i <= |a| && j <= |b|
    ensures Common(z, a, i, b, j) && |z| == Length(a, i, b, j)
    decreases i + j
  {
    if i == 0 || j == 0 {
      z := [];
      assert Embeds(z, a, i, []) && Embeds(z, b, j, []);
    } else if a[i - 1] == b[j - 1] {
      z := LengthIsReached(a, i - 1, b, j - 1);
      EmbedsAppend(z, a, i - 1, a[i - 1]);
      EmbedsAppend(z, b, j - 1, a[i - 1]);
      z := z + [a[i - 1]];
    } else if Length(a, i - 1, b, j) > Length(a, i, b, j - 1) {
      z := LengthIsReached(a, i - 1, b, j);
      EmbedsWider(z, a, i - 1, i);
    } else {
      z := LengthIsReached(a, i, b, j - 1);
      EmbedsWider(z, b, j - 1, j);
    }
  }

  /** The recurrence computes the true maximum. */
  lemma LengthIsLongest(a: string, i: nat, b: string, j: nat)
    requires i <= |a| && j <= |b|
    ensures LongestLength(a, i, b, j, Length(a, i, b, j))
  {
    var z := LengthIsReached(a, i, b, j);
    forall z | Common(z, a, i, b, j) ensures |z| <= Length(a, i, b, j) {
      LengthIsBound(a, i, b, j, z);
    }
  }

  // ---------------------------------------------------------------- the table

  /** The linear position of a cell, and the 32-bit address the source computes for it. */
  function Position(i: nat, j: nat, width: nat): nat {
    if i == 0 then j else Position(i - 1, j, width) + width
  }

  lemma {:induction false} PositionIsProduct(i: nat, j: nat, width: nat)
    ensures Position(i, j, width) == i * width + j
  {
    if i > 0 {
      PositionIsProduct(i - 1, j, width);
      assert (i - 1) * width == i * width - width;
    }
  }

  function Address(i: nat, j: nat, width: nat): (r: nat)
    ensures r < TWO32
  {
    Position(i, j, width) % TWO32
  }

  lemma {:induction false} PositionShift(i: nat, j: nat, k: nat, width: nat)
    ensures Position(i, j + k, width) == Position(i, j, width) + k
  {
    if i > 0 {
      PositionShift(i - 1, j, k, width);
    }
  }

  lemma {:induction false} RowsAscend(i: nat, i': nat, width: nat)
    requires i <= i'
    ensures Position(i, 0, width) <= Position(i', 0, width)
    ensures i < i' ==> Position(i, 0, width) + width <= Position(i', 0, width)
  {
    if i < i' {
      RowsAscend(i, i' - 1, width);
    }
  }

  lemma PositionOrder(i: nat, j: nat, i': nat, j': nat, width: nat)
    requires j < width && j' < width
    ensures Position(i, j, width) < Position(i', j', width) <==> i < i' || (i == i' && j < j')
    ensures Position(i, j, width) == Position(i', j', width) <==> i == i' && j == j'
  {
    PositionShift(i, 0, j, width);
    PositionShift(i', 0, j', width);
    if i <= i' {
      RowsAscend(i, i', width);
    } else {
      RowsAscend(i', i, width);
    }
  }

  /** The number of cells of the table of two strings. */
  function Cells(a: string, b: string): nat {
    Position(|a|, |b|, |b| + 1) + 1
  }

  lemma CellsAreProduct(a: string, b: string)
    ensures Cells(a, b) == (|a| + 1) * (|b| + 1)
  {
    PositionIsProduct(|a|, |b|, |b| + 1);
  }

  ghost predicate NoSharedAddress(a: string, b: string, width: nat) {
    forall i: nat, j: nat, i': nat, j': nat :: i <= |a| && j <= |b| && i' <= |a| && j' <= |b| ==>
      Address(i, j, width) == Address(i', j', width) ==> i == i' && j == j'
  }

  /** Addresses tell all cells apart exactly when the table has at most 2^32 of them. */
  lemma AddressesDistinct(a: string, b: string)
    ensures NoSharedAddress(a, b, |b| + 1) <==> Cells(a, b) <= TWO32
  {
    var width := |b| + 1;
    if Cells(a, b) <= TWO32 {
      forall i: nat, j: nat, i': nat, j': nat
        | i <= |a| && j <= |b| && i' <= |a| && j' <= |b| && Address(i, j, width) == Address(i', j', width)
        ensures i == i' && j == j'
      {
        PositionOrder(i, j, |a|, |b|, width);
        PositionOrder(i', j', |a|, |b|, width);
        PositionOrder(i, j, i', j', width);
      }
    } else {
      var i, j := CellAt(|a|, |b|, width, TWO32);
      assert Address(i, j, width) == 0 == Address(0, 0, width);
    }
  }

  /** Every position up to that of a cell belongs to some cell. */
  lemma {:induction false} CellAt(i: nat, j: nat, width: nat, p: nat) returns (r: nat, c: nat)
    requires j < width && p <= Position(i, j, width)
    ensures r <= i && c < width && Position(r, c, width) == p && (r == i ==> c <= j)
  {
    if i == 0 {
      r, c := 0, p;
    } else {
      PositionShift(i, 0, j, width);
      if p >= Position(i, 0, width) {
        r, c := i, p - Position(i, 0, width);
        PositionShift(i, 0, c, width);
      } else {
        PositionShift(i - 1, 0, width - 1, width);
        r, c := CellAt(i - 1, width - 1, width, p);
      }
    }
  }

  /** What the table holds after `done` cells were written: every cell among the last 2^32
      written still has its value. Older ones have been overwritten. */
  ghost predicate Filled(table: seq<u32>, a: string, b: string, width: nat, done: nat) {
    forall i: nat, j: nat {:trigger Live(i, j, width, done)} :: i <= |a| && j <= |b| && Live(i, j, width, done) ==>
      Address(i, j, width) < |table| && table[Address(i, j, width)] == Length(a, i, b, j)
  }

  ghost predicate Live(i: nat, j: nat, width: nat, done: nat) {
    Position(i, j, width) < done <= Position(i, j, width) + TWO32
  }

  lemma FilledStep(table: seq<u32>, table': seq<u32>, a: string, b: string, i: nat, j: nat, width: nat)
    requires i <= |a| < TWO32 && j <= |b| && Length(a, i, b, j) < TWO32
    requires width == |b| + 1
    requires Filled(table, a, b, width, Position(i, j, width))
    requires Address(i, j, width) < |table|
    requires table' == table[Address(i, j, width) := Length(a, i, b, j)]
    ensures Filled(table', a, b, width, Position(i, j, width) + 1)
  {
    var done := Position(i, j, width);
    forall i': nat, j': nat | i' <= |a| && j' <= |b| && Live(i', j', width, done + 1)
      ensures Address(i', j', width) < |table'| && table'[Address(i', j', width)] == Length(a, i', b, j')
    {
      var p := Position(i', j', width);
      PositionOrder(i', j', i, j, width);
      if p < done {
        assert Live(i', j', width, done);
        assert Address(i', j', width) != Address(i, j, width) by {
          DistinctModulo(p, done);
        }
      }
    }
  }

  lemma DistinctModulo(p: nat, q: nat)
    requires p < q < p + TWO32
    ensures p % TWO32 != q % TWO32
  {
  }

  /** The value of one cell, from its three live neighbours. */
  method CellValue(a: string, b: string, table: array<u32>, i: nat, j: nat, width: nat) returns (v: u32)
    requires |a| < TWO32 - 2 && |b| < TWO32 - 2 && width == |b| + 1
    requires i <= |a| && j <= |b|
    requires Filled(table[..], a, b, width, Position(i, j, width))
    ensures v == Length(a, i, b, j)
  {
    if i == 0 || j == 0 {
      return 0;
    }
    ghost var done := Position(i, j, width);
    PositionShift(i, j - 1, 1, width);
    assert Live(i - 1, j - 1, width, done) && Live(i - 1, j, width, done) && Live(i, j - 1, width, done);
    if a[i - 1] == b[j - 1] {
      var diagonal: nat := table[Address(i - 1, j - 1, width)];
      v := diagonal + 1;
    } else {
      var lcs1 := table[Address(i - 1, j, width)];
      var lcs2 := table[Address(i, j - 1, width)];
      v := if lcs1 > lcs2 then lcs1 else lcs2;
    }
  }

  /** Fills row `i`, from the row before it. */
  method FillRow(a: string, b: string, table: array<u32>, i: nat, width: nat)
    requires |a| < TWO32 - 2 && |b| < TWO32 - 2 && width == |b| + 1
    requires i <= |a| && Cells(a, b) <= table.Length
    requires Filled(table[..], a, b, width, Position(i, 0, width))
    modifies table
    ensures Filled(table[..], a, b, width, Position(i + 1, 0, width))
  {
    var j: nat := 0;
    while j <= |b|
      invariant j <= |b| + 1
      invariant Filled(table[..], a, b, width, Position(i, j, width))
    {
      ghost var before := table[..];
      var v := CellValue(a, b, table, i, j, width);
      assert Address(i, j, width) < table.Length by {
        PositionOrder(i, j, |a|, |b|, width);
      }
      table[Address(i, j, width)] := v;
      assert table[..] == before[Address(i, j, width) := v];
      FilledStep(before, table[..], a, b, i, j, width);
      PositionShift(i, j, 1, width);
      j := j + 1;
    }
    PositionShift(i, 0, width, width);
  }

  /** Fills the whole table, row by row. Whatever its size, the last 2^32 cells are right. */
  method BuildTable(a: string, b: string, table: array<u32>)
    requires |a| < TWO32 - 2 && |b| < TWO32 - 2
    requires Cells(a, b) <= table.Length
    modifies table
    ensures Filled(table[..], a, b, |b| + 1, Cells(a, b))
  {
    var width := |b| + 1;
    var i: nat := 0;
    assert Position(i, 0, width) == 0;
    while i <= |a|
      invariant i <= |a| + 1
      invariant Filled(table[..], a, b, width, Position(i, 0, width))
    {
      FillRow(a, b, table, i, width);
      i := i + 1;
    }
    PositionShift(|a|, 0, |b|, width);
  }

  // ---------------------------------------------------------------- reading the table

  lemma SameModulo(p: nat)
    ensures (p + TWO32) % TWO32 == p % TWO32
  {
  }

  /** The position written last among those below `n` with the address of `p`. */
  function Latest(p: nat, n: nat): (q: nat)
    requires p < n
    ensures p <= q < n <= q + TWO32 && q % TWO32 == p % TWO32
    decreases n - p
  {
    SameModulo(p);
    if p + TWO32 < n then Latest(p + TWO32, n) else p
  }

  /** The filled table holds the value of the cell `(r, c)` at the address of `(i, j)`. */
  ghost predicate Shows(a: string, i: nat, b: string, j: nat, r: nat, c: nat) {
    && i <= |a| && j <= |b| && r <= |a| && c <= |b| && Position(i, j, |b| + 1) < Cells(a, b)
    && Position(r, c, |b| + 1) == Latest(Position(i, j, |b| + 1), Cells(a, b))
  }

  lemma SomeCellShows(a: string, i: nat, b: string, j: nat)
    requires i <= |a| && j <= |b|
    ensures exists r: nat, c: nat :: Shows(a, i, b, j, r, c)
  {
    PositionOrder(i, j, |a|, |b|, |b| + 1);
    var r, c := CellAt(|a|, |b|, |b| + 1, Latest(Position(i, j, |b| + 1), Cells(a, b)));
    assert Shows(a, i, b, j, r, c);
  }

  /** What is read at a cell of the filled table: the length of the cell written last at its address. */
  ghost function Shown(a: string, i: nat, b: string, j: nat): nat
    requires i <= |a| && j <= |b|
  {
    SomeCellShows(a, i, b, j);
    var r: nat, c: nat :| Shows(a, i, b, j, r, c);
    Length(a, r, b, c)
  }

  lemma ShownAt(a: string, i: nat, b: string, j: nat, r: nat, c: nat)
    requires Shows(a, i, b, j, r, c)
    ensures Shown(a, i, b, j) == Length(a, r, b, c)
  {
    forall r': nat, c': nat | Shows(a, i, b, j, r', c') ensures r' == r && c' == c {
      PositionOrder(r, c, r', c', |b| + 1);
    }
  }

  /** A cell that has not been overwritten shows its own length. */
  lemma ShownIsLength(a: string, i: nat, b: string, j: nat)
    requires i <= |a| && j <= |b| && Cells(a, b) <= Position(i, j, |b| + 1) + TWO32
    ensures Shown(a, i, b, j) == Length(a, i, b, j)
  {
    PositionOrder(i, j, |a|, |b|, |b| + 1);
    ShownAt(a, i, b, j, i, j);
  }

  lemma TableShows(table: seq<u32>, a: string, i: nat, b: string, j: nat)
    requires i <= |a| && j <= |b| && Filled(table, a, b, |b| + 1, Cells(a, b))
    ensures Address(i, j, |b| + 1) < |table| && table[Address(i, j, |b| + 1)] == Shown(a, i, b, j)
  {
    SomeCellShows(a, i, b, j);
    var r: nat, c: nat :| Shows(a, i, b, j, r, c);
    ShownAt(a, i, b, j, r, c);
    assert Live(r, c, |b| + 1, Cells(a, b));
  }

  method ReadCell(a: string, b: string, table: array<u32>, i: nat, j: nat) returns (v: u32)
    requires i <= |a| && j <= |b| && Filled(table[..], a, b, |b| + 1, Cells(a, b))
    ensures v == Shown(a, i, b, j)
  {
    TableShows(table[..], a, i, b, j);
    v := table[Address(i, j, |b| + 1)];
  }

  /** How many characters the walk passes from `(i, j)`, by what it reads. */
  ghost function Passed(a: string, i: nat, b: string, j: nat): nat
    requires i <= |a| && j <= |b|
    decreases i + j
  {
    if i == 0 || j == 0 then 0
    else if a[i - 1] == b[j - 1] then Passed(a, i - 1, b, j - 1) + 1
    else if Shown(a, i - 1, b, j) > Shown(a, i, b, j - 1) then Passed(a, i - 1, b, j)
    else Passed(a, i, b, j - 1)
  }

  lemma {:induction false} PassedMatch(a: string, i: nat, b: string, j: nat)
    requires 0 < i <= |a| && 0 < j <= |b| && a[i - 1] == b[j - 1]
    ensures Passed(a, i, b, j) == Passed(a, i - 1, b, j - 1) + 1
  {
  }

  lemma {:induction false} PassedMiss(a: string, i: nat, b: string, j: nat)
    requires 0 < i <= |a| && 0 < j <= |b| && a[i - 1] != b[j - 1]
    ensures Shown(a, i - 1, b, j) > Shown(a, i, b, j - 1) ==> Passed(a, i, b, j) == Passed(a, i - 1, b, j)
    ensures Shown(a, i - 1, b, j) <= Shown(a, i, b, j - 1) ==> Passed(a, i, b, j) == Passed(a, i, b, j - 1)
  {
  }

  /** Of the cells (0, 0) and (0, 1), the walk reads only the second, and only where it cannot go wrong. */
  lemma FirstPair(a: string, b: string)
    requires |a| > 0 && |b| > 0 && a[0] != b[0]
    ensures Passed(a, 1, b, 1) == Length(a, 1, b, 1) == 0
  {
    PassedMiss(a, 1, b, 1);
  }

  lemma FarCells(i: nat, j: nat, width: nat)
    requires 0 < i && 0 < j < width && (i > 1 || j > 1)
    ensures Position(i - 1, j, width) >= 2 && Position(i, j - 1, width) >= 2
  {
    PositionShift(i - 1, j, width - 1, width);
    if i > 1 {
      PositionShift(i - 2, j, width, width);
    }
  }

  /** In a table that fits but for its first two cells, the walk passes exactly a longest common subsequence. */
  lemma {:induction false} FittingWalk(a: string, i: nat, b: string, j: nat)
    requires Cells(a, b) <= TWO32 + 2 && i <= |a| && j <= |b|
    ensures Passed(a, i, b, j) == Length(a, i, b, j)
    decreases i + j
  {
    if i == 0 || j == 0 {
    } else if a[i - 1] == b[j - 1] {
      FittingWalk(a, i - 1, b, j - 1);
    } else if i == 1 && j == 1 {
      FirstPair(a, b);
    } else {
      FarCells(i, j, |b| + 1);
      ShownIsLength(a, i - 1, b, j);
      ShownIsLength(a, i, b, j - 1);
      PassedMiss(a, i, b, j);
      FittingWalk(a, i - 1, b, j);
      FittingWalk(a, i, b, j - 1);
    }
  }

  // ---------------------------------------------------------------- ranges

  /** A pair of equal substrings, ends included. */
  datatype Range = Range(aStart: int, aEnd: int, bStart: int, bEnd: int, len: int)

  ghost predicate Equal(r: Range, a: string, b: string) {
    && 0 <= r.aStart <= r.aEnd < |a| && 0 <= r.bStart <= r.bEnd < |b|
    && r.len == r.aEnd - r.aStart + 1 == r.bEnd - r.bStart + 1
    && SameText(a, r.aStart, b, r.bStart, r.len)
  }

  /** `n` characters agree, from `i` in one string and `j` in the other. */
  predicate SameText(a: string, i: nat, b: string, j: nat, n: nat)
    requires i + n <= |a| && j + n <= |b|
    decreases n
  {
    n == 0 || (a[i] == b[j] && SameText(a, i + 1, b, j + 1, n - 1))
  }

  function Text(a: string, i: nat, n: nat): (r: string)
    requires i + n <= |a|
    ensures |r| == n
    decreases n
  {
    if n == 0 then "" else [a[i]] + Text(a, i + 1, n - 1)
  }

  lemma {:induction false} TextIsSlice(a: string, i: nat, n: nat)
    requires i + n <= |a|
    ensures Text(a, i, n) == a[i..i + n]
    decreases n
  {
    if n > 0 {
      TextIsSlice(a, i + 1, n - 1);
    }
  }

  lemma {:induction false} SameTextIsEqual(a: string, i: nat, b: string, j: nat, n: nat)
    requires i + n <= |a| && j + n <= |b|
    ensures SameText(a, i, b, j, n) <==> a[i..i + n] == b[j..j + n]
    decreases n
  {
    if n > 0 {
      SameTextIsEqual(a, i + 1, b, j + 1, n - 1);
      assert a[i..i + n] == [a[i]] + a[i + 1..i + n];
      assert b[j..j + n] == [b[j]] + b[j + 1..j + n];
      if a[i..i + n] == b[j..j + n] {
        assert a[i..i + n][0] == b[j..j + n][0] && a[i..i + n][1..] == b[j..j + n][1..];
      }
    }
  }

  /** `r` lies wholly before `later` in both strings, and the two could not be merged. */
  ghost predicate Before(r: Range, later: Range) {
    && r.aEnd < later.aStart && r.bEnd < later.bStart
    && !(r.aEnd + 1 == later.aStart && r.bEnd + 1 == later.bStart)
  }

  /** Ranges as they are emitted, from the ends of the strings towards their beginnings: the
      head is the one emitted last. */
  datatype Ranges = None | Then(last: Range, earlier: Ranges)

  ghost predicate Emitted(rs: Ranges, a: string, b: string) {
    rs.Then? ==> Next(rs.last, a, b, rs.earlier) && Emitted(rs.earlier, a, b)
  }

  /** A further range is sound and lies before everything emitted. */
  ghost predicate Next(r: Range, a: string, b: string, rs: Ranges) {
    Equal(r, a, b) && (rs.Then? ==> Before(r, rs.last))
  }

  /** What the ranges spell when read from the last emitted to the first. */
  ghost function Spell(a: string, rs: Ranges): string {
    if rs.None? then "" else Piece(a, rs.last) + Spell(a, rs.earlier)
  }

  ghost function Piece(a: string, r: Range): string {
    if 0 <= r.aStart && 0 <= r.len && r.aStart + r.len <= |a| then Text(a, r.aStart, r.len) else ""
  }

  ghost function TotalLength(rs: Ranges): int {
    if rs.None? then 0 else TotalLength(rs.earlier) + rs.last.len
  }

  lemma {:induction false} SpellLength(rs: Ranges, a: string, b: string)
    requires Emitted(rs, a, b)
    ensures |Spell(a, rs)| == TotalLength(rs)
  {
    if rs.Then? {
      SpellLength(rs.earlier, a, b);
    }
  }

  /** The ranges at least `min` long, in the order of emission; a minimum of zero keeps all. */
  ghost function Keep(rs: Ranges, min: nat): seq<Range> {
    if rs.None? then []
    else Keep(rs.earlier, min) + (if min == 0 || rs.last.len >= min then [rs.last] else [])
  }

  // ---------------------------------------------------------------- the walk

  /** The variables of the range being extended; `aStart` equal to the length of the first string
      means there is none. */
  datatype Cursor = Cursor(aStart: int, aEnd: int, bStart: int, bEnd: int) {
    function Current(): Range {
      Range(aStart, aEnd, bStart, bEnd, aEnd - aStart + 1)
    }
  }

  /** Between ranges: everything passed is emitted, and the next match cannot touch it. */
  ghost predicate Idle(a: string, b: string, i: nat, j: nat, text: string, all: Ranges) {
    && i <= |a| && j <= |b|
    && Emitted(all, a, b) && text == Spell(a, all)
    && (all.Then? ==>
         i <= all.last.aStart && j <= all.last.bStart
         && (i > 0 && j > 0 ==> i < all.last.aStart || j < all.last.bStart))
  }

  /** Inside a range: `r` begins at the current pair. */
  ghost predicate Extending(a: string, b: string, i: nat, j: nat, text: string, all: Ranges, r: Range) {
    && Emitted(all, a, b) && Next(r, a, b, all)
    && text == Piece(a, r) + Spell(a, all)
    && r.aStart == i && r.bStart == j
  }

  ghost predicate Walking(a: string, b: string, i: nat, j: nat, text: string, all: Ranges, cur: Cursor) {
    if cur.aStart == |a| then Idle(a, b, i, j, text, all)
    else Extending(a, b, i, j, text, all, cur.Current())
  }

  /** `z` is spelled by increasing positions of `s`, none before `i`. */
  ghost predicate SpelledFrom(z: string, s: string, i: nat) {
    exists at: seq<nat> :: Embeds(z, s, |s|, at) && (at != [] ==> i <= at[0])
  }

  lemma PrependOne(z: string, s: string, i: nat, j: nat)
    requires SpelledFrom(z, s, j) && i < j && i < |s|
    ensures SpelledFrom([s[i]] + z, s, i)
  {
    var at: seq<nat> :| Embeds(z, s, |s|, at) && (at != [] ==> j <= at[0]);
    var at' := [i] + at;
    forall k, l | 0 <= k < l < |at'| ensures at'[k] < at'[l] {
      if k == 0 && l > 1 {
        assert at[0] < at[l - 1];
      }
    }
    assert Embeds([s[i]] + z, s, |s|, at');
  }

  lemma {:induction false} PrependText(z: string, s: string, i: nat, n: nat, j: nat)
    requires SpelledFrom(z, s, j) && n > 0 && i + n <= j && i + n <= |s|
    ensures SpelledFrom(Text(s, i, n) + z, s, i)
    decreases n
  {
    if n == 1 {
      PrependOne(z, s, i, j);
      assert Text(s, i, n) == [s[i]];
    } else {
      PrependText(z, s, i + 1, n - 1, j);
      PrependOne(Text(s, i + 1, n - 1) + z, s, i, i + 1);
      assert Text(s, i, n) + z == [s[i]] + (Text(s, i + 1, n - 1) + z);
    }
  }

  lemma {:induction false} SameTextCopies(a: string, i: nat, b: string, j: nat, n: nat)
    requires i + n <= |a| && j + n <= |b| && SameText(a, i, b, j, n)
    ensures Text(a, i, n) == Text(b, j, n)
    decreases n
  {
    if n > 0 {
      SameTextCopies(a, i + 1, b, j + 1, n - 1);
    }
  }

  /** Emitted ranges spell a common subsequence, from where the last of them begins. */
  lemma {:induction false} SpellIsCommon(a: string, b: string, rs: Ranges)
    requires Emitted(rs, a, b)
    ensures SpelledFrom(Spell(a, rs), a, if rs.None? then |a| else rs.last.aStart)
    ensures SpelledFrom(Spell(a, rs), b, if rs.None? then |b| else rs.last.bStart)
  {
    if rs.None? {
      assert Embeds([], a, |a|, []) && Embeds([], b, |b|, []);
    } else {
      var r := rs.last;
      SpellIsCommon(a, b, rs.earlier);
      SameTextCopies(a, r.aStart, b, r.bStart, r.len);
      PrependText(Spell(a, rs.earlier), a, r.aStart, r.len, if rs.earlier.None? then |a| else rs.earlier.last.aStart);
      PrependText(Spell(a, rs.earlier), b, r.bStart, r.len, if rs.earlier.None? then |b| else rs.earlier.last.bStart);
    }
  }

  lemma WalkEnds(a: string, b: string, i: nat, j: nat, text: string, all: Ranges)
    requires Idle(a, b, i, j, text, all)
    ensures Emitted(all, a, b) && text == Spell(a, all)
    ensures Common(text, a, |a|, b, |b|)
  {
    SpellIsCommon(a, b, all);
  }

  function Opened(i: int, j: int): Range {
    Range(i - 1, i - 1, j - 1, j - 1, 1)
  }

  function Extended(r: Range): Range {
    Range(r.aStart - 1, r.aEnd, r.bStart - 1, r.bEnd, r.len + 1)
  }

  lemma {:induction false} ExtendedIsEqual(r: Range, a: string, b: string)
    requires Equal(r, a, b) && 0 < r.aStart && 0 < r.bStart && a[r.aStart - 1] == b[r.bStart - 1]
    ensures Equal(Extended(r), a, b) && Piece(a, Extended(r)) == [a[r.aStart - 1]] + Piece(a, r)
  {
  }

  lemma Reassociate(c: char, p: string, z: string)
    ensures [c] + (p + z) == ([c] + p) + z
  {
  }

  /** A match next to the open range extends it. */
  lemma {:induction false} ExtendRange(a: string, b: string, i: nat, j: nat, text: string, all: Ranges, r: Range)
    requires Extending(a, b, i, j, text, all, r) && 0 < i && 0 < j && a[i - 1] == b[j - 1]
    ensures Extending(a, b, i - 1, j - 1, [a[i - 1]] + text, all, Extended(r))
  {
    ExtendedIsEqual(r, a, b);
    Reassociate(a[i - 1], Piece(a, r), Spell(a, all));
  }

  /** A match after a gap opens a range. */
  lemma {:induction false} OpenRange(a: string, b: string, i: nat, j: nat, text: string, all: Ranges)
    requires Idle(a, b, i, j, text, all) && 0 < i && 0 < j && a[i - 1] == b[j - 1]
    ensures Extending(a, b, i - 1, j - 1, [a[i - 1]] + text, all, Opened(i, j))
  {
  }

  /** Emitting the open range, either when a gap follows or at the beginning of a string,
      changes nothing of what has been spelled. */
  lemma {:induction false} EmitRange(a: string, b: string, i: nat, j: nat, i': nat, j': nat, text: string,
                                     all: Ranges, r: Range)
    requires Extending(a, b, i, j, text, all, r)
    requires i' <= i && j' <= j && (i' > 0 && j' > 0 ==> i' < i || j' < j)
    ensures Idle(a, b, i', j', text, Then(r, all))
  {
  }

  /** Between ranges a step changes nothing. */
  lemma {:induction false} StayIdle(a: string, b: string, i: nat, j: nat, i': nat, j': nat, text: string, all: Ranges)
    requires Idle(a, b, i, j, text, all) && i' <= i && j' <= j
    ensures Idle(a, b, i', j', text, all)
  {
  }

  /** A matching pair opens a range or extends the open one, and asks for emission when the range
      reaches the beginning of either string. */
  method TrackMatch(a: string, b: string, i: nat, j: nat, cur0: Cursor, ghost z: string, ghost all: Ranges)
    returns (cur: Cursor, emitRange: bool)
    requires 0 < i && 0 < j && Walking(a, b, i, j, z, all, cur0) && a[i - 1] == b[j - 1]
    ensures cur.aStart == i - 1 && cur.bStart == j - 1
    ensures Walking(a, b, i - 1, j - 1, [a[i - 1]] + z, all, cur)
    ensures emitRange <==> i == 1 || j == 1
  {
    cur, emitRange := cur0, false;
    if cur.aStart == |a| {
      OpenRange(a, b, i, j, z, all);
      cur := Cursor(i - 1, i - 1, j - 1, j - 1);
      assert cur.Current() == Opened(i, j);
    } else {
      ExtendRange(a, b, i, j, z, all, cur.Current());
      if cur.aStart == i && cur.bStart == j {
        cur := cur.(aStart := cur.aStart - 1, bStart := cur.bStart - 1);
        assert cur.Current() == Extended(cur0.Current());
      } else {
        // A match that does not touch the open range never happens.
        assert false;
      }
    }
    if cur.aStart == 0 || cur.bStart == 0 {
      emitRange := true;
    }
  }

  lemma KeepOneMore(all: Ranges, r: Range, min: nat, matches0: seq<Range>)
    ensures matches0 + Keep(Then(r, all), min)
         == matches0 + Keep(all, min) + (if min == 0 || r.len >= min then [r] else [])
  {
  }

  /** The end of a step: a range asked for is closed, and reported when indexes are wanted and
      it is long enough. */
  method Emit(a: string, b: string, ghost i0: nat, ghost j0: nat, i: nat, j: nat, cur0: Cursor,
              emitRange: bool, getidx: bool, minmatchlen: nat, matches1: seq<Range>,
              ghost z: string, ghost matches0: seq<Range>, ghost all0: Ranges)
    returns (cur: Cursor, matches: seq<Range>, ghost all: Ranges)
    requires i <= i0 && j <= j0 && Walking(a, b, i0, j0, z, all0, cur0)
    requires emitRange ==> cur0.aStart != |a| && (i > 0 && j > 0 ==> i < i0 || j < j0)
    requires !emitRange ==> (i == i0 && j == j0) || (cur0.aStart == |a| && (i < i0 || j < j0))
    requires matches1 == matches0 + (if getidx then Keep(all0, minmatchlen) else [])
    ensures Walking(a, b, i, j, z, all, cur)
    ensures matches == matches0 + (if getidx then Keep(all, minmatchlen) else [])
    ensures cur.aStart == if emitRange then |a| else cur0.aStart
  {
    cur, matches, all := cur0, matches1, all0;
    if emitRange {
      var matchLen := cur.aEnd - cur.aStart + 1;
      ghost var r := cur.Current();
      EmitRange(a, b, i0, j0, i, j, z, all, r);
      KeepOneMore(all, r, minmatchlen, matches0);
      if minmatchlen == 0 || matchLen >= minmatchlen {
        if getidx {
          matches := matches + [Range(cur.aStart, cur.aEnd, cur.bStart, cur.bEnd, matchLen)];
        }
      }
      all := Then(r, all);
      cur := cur.(aStart := |a|);
    } else if cur.aStart == |a| {
      StayIdle(a, b, i0, j0, i, j, z, all);
    }
  }

  /** What has been spelled so far is no longer than a longest common subsequence. */
  lemma {:induction false} PassedIsBounded(a: string, b: string, i: nat, j: nat, z: string, all: Ranges, r: Range)
    requires Extending(a, b, i, j, z, all, r)
    ensures |z| <= Length(a, |a|, b, |b|)
  {
    var all' := Then(r, all);
    assert Emitted(all', a, b) && Spell(a, all') == z;
    SpellIsCommon(a, b, all');
    LengthIsBound(a, |a|, b, |b|, z);
  }

  /** There is still room for the next character. */
  lemma {:induction false} MatchHasRoom(a: string, b: string, i: nat, j: nat, z: string, all: Ranges, cur: Cursor)
    requires 0 < i && 0 < j && Walking(a, b, i, j, z, all, cur) && a[i - 1] == b[j - 1]
    ensures |z| < Length(a, |a|, b, |b|)
  {
    var r: Range;
    if cur.aStart == |a| {
      r := Opened(i, j);
      OpenRange(a, b, i, j, z, all);
    } else {
      r := Extended(cur.Current());
      ExtendRange(a, b, i, j, z, all, cur.Current());
    }
    PassedIsBounded(a, b, i - 1, j - 1, [a[i - 1]] + z, all, r);
  }

  /** `std::string::resize`. */
  function Resized(s: string, n: nat): (r: string)
    ensures |r| == n
  {
    if n <= |s| then s[..n] else s + seq(n - |s|, _ => '\0')
  }

  /** `z` has been stored at the end of `base`. */
  ghost predicate Stored(text: string, base: string, z: string) {
    |z| <= |base| && text == base[..|base| - |z|] + z
  }

  /** Stores the next character, in front of those already stored. */
  method PutChar(text: string, idx: nat, c: char, ghost base: string, ghost z: string) returns (r: string)
    requires Stored(text, base, z) && 0 < idx == |base| - |z|
    ensures Stored(r, base, [c] + z)
  {
    r := text[idx - 1 := c];
  }

  /** At the pair `i`, `j` the characters `z` have been stored behind `idx`, and as many remain to be passed as
      the table shows. */
  ghost predicate Progress(a: string, b: string, i: nat, j: nat, idx: nat, text: string, base: string, z: string) {
    && i <= |a| && j <= |b| && |base| == Length(a, |a|, b, |b|) && Stored(text, base, z) && idx == |base| - |z|
    && |z| + Passed(a, i, b, j) == Passed(a, |a|, b, |b|)
  }

  /** A step over a matching pair: the character is stored and the open range follows. */
  method StepOnMatch(a: string, b: string, i: nat, j: nat, idx: nat, text0: string, cur0: Cursor,
                     ghost base: string, ghost z: string, ghost all: Ranges)
    returns (text: string, cur: Cursor, emitRange: bool)
    requires 0 < i <= |a| && 0 < j <= |b| && a[i - 1] == b[j - 1] && Walking(a, b, i, j, z, all, cur0)
    requires Progress(a, b, i, j, idx, text0, base, z)
    ensures 0 < idx && Progress(a, b, i - 1, j - 1, idx - 1, text, base, [a[i - 1]] + z)
    ensures Walking(a, b, i - 1, j - 1, [a[i - 1]] + z, all, cur)
    ensures cur.aStart == i - 1 && (emitRange <==> i == 1 || j == 1)
  {
    PassedMatch(a, i, b, j);
    MatchHasRoom(a, b, i, j, z, all, cur0);
    text := PutChar(text0, idx, a[i - 1], base, z);
    cur, emitRange := TrackMatch(a, b, i, j, cur0, z, all);
  }

  /** From a pair that does not match, the neighbour that shows the longer common subsequence. */
  ghost predicate Retreats(a: string, b: string, i: nat, j: nat, i': nat, j': nat)
    requires 0 < i <= |a| && 0 < j <= |b|
  {
    if Shown(a, i - 1, b, j) > Shown(a, i, b, j - 1) then i' == i - 1 && j' == j else i' == i && j' == j - 1
  }

  lemma ProgressOnMiss(a: string, b: string, i: nat, j: nat, i': nat, j': nat, idx: nat, text: string,
                       base: string, z: string)
    requires Progress(a, b, i, j, idx, text, base, z) && 0 < i && 0 < j && a[i - 1] != b[j - 1]
    requires Retreats(a, b, i, j, i', j')
    ensures Progress(a, b, i', j', idx, text, base, z)
  {
    PassedMiss(a, i, b, j);
  }

  /** One step away from a pair that does not match. */
  method Retreat(a: string, b: string, table: array<u32>, i0: nat, j0: nat) returns (i: nat, j: nat)
    requires 0 < i0 <= |a| && 0 < j0 <= |b| && Filled(table[..], a, b, |b| + 1, Cells(a, b))
    ensures Retreats(a, b, i0, j0, i, j)
  {
    i, j := i0, j0;
    var lcs1 := ReadCell(a, b, table, i - 1, j);
    var lcs2 := ReadCell(a, b, table, i, j - 1);
    if lcs1 > lcs2 {
      i := i - 1;
    } else {
      j := j - 1;
    }
  }

  /** The state of the walk. */
  ghost predicate WalkAt(a: string, b: string, i: nat, j: nat, idx: nat, text: string, base: string, z: string,
                         all: Ranges, cur: Cursor) {
    && Progress(a, b, i, j, idx, text, base, z)
    && Walking(a, b, i, j, z, all, cur) && (i == 0 || j == 0 ==> cur.aStart == |a|)
  }

  /** One round of the walk. */
  method WalkStep(a: string, b: string, table: array<u32>, getidx: bool, minmatchlen: nat,
                  i0: nat, j0: nat, idx0: nat, text0: string, cur0: Cursor, matches1: seq<Range>,
                  ghost base: string, ghost z0: string, ghost matches0: seq<Range>, ghost all0: Ranges)
    returns (i: nat, j: nat, idx: nat, text: string, cur: Cursor, matches: seq<Range>,
             ghost z: string, ghost all: Ranges)
    requires Filled(table[..], a, b, |b| + 1, Cells(a, b))
    requires 0 < i0 && 0 < j0 && WalkAt(a, b, i0, j0, idx0, text0, base, z0, all0, cur0)
    requires matches1 == matches0 + (if getidx then Keep(all0, minmatchlen) else [])
    ensures WalkAt(a, b, i, j, idx, text, base, z, all, cur) && i + j < i0 + j0
    ensures matches == matches0 + (if getidx then Keep(all, minmatchlen) else [])
  {
    i, j, idx, text, z := i0, j0, idx0, text0, z0;
    var emitRange: bool;
    ghost var i1, j1 := i, j;
    if a[i - 1] == b[j - 1] {
      text, cur, emitRange := StepOnMatch(a, b, i, j, idx, text, cur0, base, z, all0);
      z := [a[i - 1]] + z;
      idx, i, j := idx - 1, i - 1, j - 1;
      i1, j1 := i, j;
    } else {
      cur := cur0;
      i, j := Retreat(a, b, table, i, j);
      ProgressOnMiss(a, b, i0, j0, i, j, idx, text, base, z);
      emitRange := cur.aStart != |a|;
    }
    cur, matches, all := Emit(a, b, i1, j1, i, j, cur, emitRange, getidx, minmatchlen, matches1, z, matches0, all0);
  }

  /** The walk back through the table. `matches` receives the ranges that are long enough, `text`
      the characters passed, at its end; `all` is every range passed, whatever its length. */
  method Walk(a: string, b: string, table: array<u32>, getidx: bool, minmatchlen: nat, text0: string,
              matches0: seq<Range>)
    returns (text: string, matches: seq<Range>, ghost all: Ranges)
    requires Filled(table[..], a, b, |b| + 1, Cells(a, b))
    ensures Emitted(all, a, b) && Common(Spell(a, all), a, |a|, b, |b|) && |Spell(a, all)| == Passed(a, |a|, b, |b|)
    ensures Stored(text, Resized(text0, Length(a, |a|, b, |b|)), Spell(a, all))
    ensures |text| == Length(a, |a|, b, |b|) >= Passed(a, |a|, b, |b|)
    ensures Common(text[|text| - Passed(a, |a|, b, |b|)..], a, |a|, b, |b|)
    ensures matches == matches0 + (if getidx then Keep(all, minmatchlen) else [])
  {
    var i: nat, j: nat := |a|, |b|;
    var idx: nat := ReadCell(a, b, table, i, j);
    ShownIsLength(a, i, b, j);
    text := Resized(text0, idx);
    var cur := Cursor(|a|, 0, 0, 0);
    matches, all := matches0, None;
    ghost var base, z: string := text, [];
    while i > 0 && j > 0
      invariant WalkAt(a, b, i, j, idx, text, base, z, all, cur)
      invariant matches == matches0 + (if getidx then Keep(all, minmatchlen) else [])
      decreases i + j
    {
      i, j, idx, text, cur, matches, z, all :=
        WalkStep(a, b, table, getidx, minmatchlen, i, j, idx, text, cur, matches, base, z, matches0, all);
    }
    WalkEnds(a, b, i, j, z, all);
    assert text[|text| - |z|..] == z;
  }

  /** Inputs the source gives up on: a string too long for 32 bits, or a table too big for 64. */
  predicate GivesUp(a: string, b: string) {
    |a| >= TWO32 - 2 || |b| >= TWO32 - 2 || 4 * Cells(a, b) >= TWO32 * TWO32
  }

  /** The overflow test of the allocation, done by multiplying and dividing back. */
  lemma AllocationTest(n: nat)
    requires 0 < n < TWO32 * TWO32
    ensures var m := n * 4 % (TWO32 * TWO32); m < TWO32 * TWO32 - 1 && m / n == 4 <==> 4 * n < TWO32 * TWO32
  {
    var m := n * 4 % (TWO32 * TWO32);
    assert m == n * (m / n) + m % n;
    if 4 * n < TWO32 * TWO32 {
      assert m == 4 * n;
    } else if m / n == 4 {
      assert m >= n * 4;
    }
  }

  lemma ProductFits(m: nat, n: nat)
    requires m < TWO32 && n < TWO32
    ensures m * n < TWO32 * TWO32
  {
    assert m * n <= TWO32 * n;
    assert TWO32 * n < TWO32 * TWO32;
  }

  /** The number of cells to allocate, unless it overflows. */
  method TableSize(a: string, b: string) returns (ok: bool, size: nat)
    requires |a| < TWO32 - 2 && |b| < TWO32 - 2
    ensures ok == !GivesUp(a, b)
    ensures ok ==> Cells(a, b) <= size
  {
    var lcssize := (|a| + 1) * (|b| + 1);
    size := lcssize * 4 % (TWO32 * TWO32);
    CellsAreProduct(a, b);
    ProductFits(|a| + 1, |b| + 1);
    AllocationTest(lcssize);
    ok := size < TWO32 * TWO32 - 1 && size / lcssize == 4;
  }

  /** The string that `lcs` builds, the ranges it passes and those it reports: `z` is what the walk has
      spelled, a common subsequence, which is a longest one if the table has at most 2^32 + 2 cells. */
  ghost predicate Built(a: string, b: string, matchstr0: string, matchstr: string, len: nat, z: string, all: Ranges) {
    && Emitted(all, a, b) && Spell(a, all) == z && TotalLength(all) == |z|
    && Common(z, a, |a|, b, |b|) && |z| == Passed(a, |a|, b, |b|) <= len
    && matchstr == Resized(matchstr0, len)[..len - |z|] + z
    && (Cells(a, b) <= TWO32 + 2 ==> |z| == len && matchstr == z)
  }

  lemma StoredWhole(text: string, base: string, z: string)
    requires Stored(text, base, z) && |z| == |base|
    ensures text == z
  {
  }

  lemma {:induction false} WalkBuilt(a: string, b: string, matchstr0: string, matchstr: string, all: Ranges)
    requires Emitted(all, a, b) && Common(Spell(a, all), a, |a|, b, |b|)
    requires |Spell(a, all)| == Passed(a, |a|, b, |b|)
    requires Stored(matchstr, Resized(matchstr0, Length(a, |a|, b, |b|)), Spell(a, all))
    ensures Built(a, b, matchstr0, matchstr, Length(a, |a|, b, |b|), Spell(a, all), all)
  {
    SpellLength(all, a, b);
    if Cells(a, b) <= TWO32 + 2 {
      FittingWalk(a, |a|, b, |b|);
      StoredWhole(matchstr, Resized(matchstr0, Length(a, |a|, b, |b|)), Spell(a, all));
    }
  }

  /** `Stralgo::lcs`. The length is the true maximum for every input. */
  method Lcs(a: string, b: string, getidx: bool, getlen: bool, minmatchlen: nat,
             matchstr0: string, len0: nat, matches0: seq<Range>)
    returns (matchstr: string, len: nat, matches: seq<Range>, ghost all: Ranges)
    ensures GivesUp(a, b) ==> matchstr == matchstr0 && len == len0 && matches == matches0
    ensures !GivesUp(a, b) ==> LongestLength(a, |a|, b, |b|, len)
    ensures !GivesUp(a, b) && getlen && !getidx ==> matchstr == matchstr0 && matches == matches0
    ensures !GivesUp(a, b) && (getidx || !getlen) ==>
      && Built(a, b, matchstr0, matchstr, len, Spell(a, all), all)
      && matches == matches0 + (if getidx then Keep(all, minmatchlen) else [])
  {
    matchstr, len, matches, all := matchstr0, len0, matches0, None;
    if |a| >= TWO32 - 2 || |b| >= TWO32 - 2 {
      return;
    }
    var ok, lcsalloc := TableSize(a, b);
    if !ok {
      return;
    }
    var table := new u32[lcsalloc];
    BuildTable(a, b, table);
    LengthIsLongest(a, |a|, b, |b|);
    if getidx || !getlen {
      matchstr, matches, all := Walk(a, b, table, getidx, minmatchlen, matchstr, matches);
      WalkBuilt(a, b, matchstr0, matchstr, all);
    }
    len := ReadCell(a, b, table, |a|, |b|);
    ShownIsLength(a, |a|, b, |b|);
  }

  // ---------------------------------------------------------------- beyond 2^32 cells

  function Padding(): string {
    seq(0x7fff_fffb, _ => 'z')
  }

  /** The last row of the table of "xy" and `Padding() + "xyzy"` has overwritten the first, and the walk leaves the
      first string one step early. */
  lemma OverflowingWalk(a: string, b: string)
    requires a == "xy" && b == Padding() + "xyzy"
    ensures !GivesUp(a, b) && Cells(a, b) > TWO32 + 2
    ensures Length(a, |a|, b, |b|) == 2 && Passed(a, |a|, b, |b|) == 1
  {
    var m: nat := 0x7fff_fffb;
    var width := |b| + 1;
    assert b[m] == 'x' && b[m + 1] == 'y' && b[m + 2] == 'z' && b[m + 3] == 'y';
    assert Cells(a, b) == 3 * 0x8000_0000 by {
      assert Position(2, |b|, width) == Position(1, |b|, width) + width == |b| + 2 * width;
    }
    assert Length(a, 1, b, m + 1) == 1;
    assert Length(a, 1, b, m + 2) == 1;
    assert Length(a, 2, b, m + 2) == 2;
    assert Length(a, 2, b, m + 3) == 2;
    assert Length(a, 2, b, m + 4) == Length(a, 1, b, m + 3) + 1 == 2;
    assert Position(0, m + 3, width) == m + 3 && Position(1, m + 2, width) == m + 2 + width;
    assert Position(2, m + 3, width) == Position(1, m + 3, width) + width == m + 3 + 2 * width;
    ShownAt(a, 0, b, m + 3, 2, m + 3);
    ShownIsLength(a, 1, b, m + 2);
    assert Passed(a, 0, b, m + 3) == 0;
    assert Passed(a, 1, b, m + 3) == 0;
  }

  /** With these strings the result is no common subsequence: it begins with a zero byte. */
  method OverflowingRun(a: string, b: string) returns (matchstr: string, len: nat)
    requires a == "xy" && b == Padding() + "xyzy"
    ensures !GivesUp(a, b) && LongestLength(a, |a|, b, |b|, len) && |matchstr| == len
    ensures !Common(matchstr, a, |a|, b, |b|)
  {
    var matches;
    ghost var all;
    matchstr, len, matches, all := Lcs(a, b, false, false, 0, "", 0, []);
    OverflowingWalk(a, b);
    LongestIsLength(a, b, len);
    WrongResult(a, b, matchstr, Spell(a, all), all);
  }

  lemma LongestIsLength(a: string, b: string, n: nat)
    requires LongestLength(a, |a|, b, |b|, n)
    ensures n == Length(a, |a|, b, |b|)
  {
    LengthIsLongest(a, |a|, b, |b|);
    var z :| Common(z, a, |a|, b, |b|) && |z| == n;
    var y :| Common(y, a, |a|, b, |b|) && |y| == Length(a, |a|, b, |b|);
  }

  lemma WrongResult(a: string, b: string, matchstr: string, z: string, all: Ranges)
    requires '\0' !in a && Built(a, b, "", matchstr, 2, z, all) && Passed(a, |a|, b, |b|) == 1
    ensures |matchstr| == 2 && !Common(matchstr, a, |a|, b, |b|)
  {
    FirstPadded(matchstr, z);
    NotSpelled(matchstr, a, |a|);
  }

  lemma FirstPadded(matchstr: string, z: string)
    requires |z| == 1 && matchstr == Resized("", 2)[..1] + z
    ensures |matchstr| == 2 && matchstr[0] == '\0'
  {
  }

  lemma NotSpelled(z: string, s: string, n: nat)
    requires z != [] && z[0] !in s
    ensures !Subsequence(z, s, n)
  {
  }
}
