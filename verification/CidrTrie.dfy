/** `CidrTrieTree`: a binary trie of address prefixes on the heap, with its nodes taken from an
    arena.

    The history of the tree is the list of its insertions. A search is specified on that list alone:
    the shortest inserted prefix of the query decides, and the first value inserted for it wins. */
module CidrTrie {
  import opened Basics

  // ---------------------------------------------------------------- specification

  /** A bit string, and the path its bits lead along: the empty one, or one more bit. */
  datatype Bits = Empty | Down(parent: Bits, bit: bool)

  /** The `i`-th bit of an address, most significant bit of each byte first. */
  predicate BitAt(ip: seq<bv8>, i: nat)
    requires i < 8 * |ip|
  {
    Shifted(ip[i / 8], 7 - i % 8) & 1 == 1
  }

  /** A byte without its lowest `u` bits. */
  function Shifted(b: bv8, u: nat): bv8
  {
    if u == 0 then b else Shifted(b, u - 1) >> 1
  }

  lemma ShiftedIs(b: bv8, u: nat)
    requires u < 8
    ensures Shifted(b, u) == b >> u
  {
    if u == 0 {
    } else if u == 1 {
    } else if u == 2 {
    } else if u == 3 {
    } else if u == 4 {
    } else if u == 5 {
    } else if u == 6 {
    } else {
    }
  }

  lemma AllShifted(b: bv8)
    ensures Shifted(b, 8) == 0
  {
    ShiftedIs(b, 7);
  }

  lemma {:induction false} ShiftedXor(a: bv8, b: bv8, u: nat)
    ensures Shifted(a ^ b, u) == Shifted(a, u) ^ Shifted(b, u)
  {
    if u > 0 {
      ShiftedXor(a, b, u - 1);
      XorShifts(Shifted(a, u - 1), Shifted(b, u - 1));
    }
  }

  lemma XorShifts(a: bv8, b: bv8)
    ensures (a ^ b) >> 1 == (a >> 1) ^ (b >> 1)
  {
  }

  /** The first `n` bits of an address. */
  function Prefix(ip: seq<bv8>, n: nat): (p: Bits)
    requires n <= 8 * |ip|
    ensures p.Empty? <==> n == 0
  {
    if n == 0 then Empty else Down(Prefix(ip, n - 1), BitAt(ip, n - 1))
  }

  lemma {:induction false} PrefixNext(ip: seq<bv8>, n: nat)
    requires n < 8 * |ip|
    ensures Prefix(ip, n + 1) == Down(Prefix(ip, n), BitAt(ip, n))
  {
  }

  /** The upper `m` bits of two bytes agree. */
  predicate SameTop(a: bv8, b: bv8, m: nat)
    requires m <= 8
  {
    Shifted(a ^ b, 8 - m) == 0
  }

  lemma SameTopIs(a: bv8, b: bv8, m: nat)
    requires 0 < m <= 8
    ensures SameTop(a, b, m) <==> (a ^ b) >> (8 - m) == 0
  {
    ShiftedIs(a ^ b, 8 - m);
  }

  lemma OneMoreBit(x: bv8, y: bv8)
    ensures x ^ y == 0 <==> (x ^ y) >> 1 == 0 && (x & 1 == 1 <==> y & 1 == 1)
  {
  }

  lemma ShiftedNext(a: bv8, b: bv8, u: nat)
    ensures Shifted(a ^ b, u) == 0 <==>
      Shifted(a ^ b, u + 1) == 0 && (Shifted(a, u) & 1 == 1 <==> Shifted(b, u) & 1 == 1)
  {
    ShiftedXor(a, b, u);
    OneMoreBit(Shifted(a, u), Shifted(b, u));
  }

  lemma SameTopNext(a: bv8, b: bv8, j: nat)
    requires j < 8
    ensures SameTop(a, b, j + 1) <==> SameTop(a, b, j) && (Shifted(a, 7 - j) & 1 == 1 <==> Shifted(b, 7 - j) & 1 == 1)
  {
    ShiftedNext(a, b, 7 - j);
  }

  lemma SameTopAll(a: bv8, b: bv8)
    ensures SameTop(a, b, 8) <==> a == b
  {
  }

  /** Two addresses agree in their first `n` bits: in whole bytes, and in the upper bits of the next one. */
  predicate SamePrefix(p: seq<bv8>, q: seq<bv8>, n: nat)
    requires n <= 8 * |p| && n <= 8 * |q|
  {
    SameBits(p, q, n / 8, n % 8)
  }

  /** The same for `i` bytes and `j` bits. */
  predicate SameBits(p: seq<bv8>, q: seq<bv8>, i: nat, j: nat)
    requires i <= |p| && i <= |q| && j <= 8 && (j > 0 ==> i < |p| && i < |q|)
  {
    p[..i] == q[..i] && (j > 0 ==> SameTop(p[i], q[i], j))
  }

  lemma OneMoreByte(p: seq<bv8>, q: seq<bv8>, i: nat)
    requires i < |p| && i < |q|
    ensures p[..i + 1] == q[..i + 1] <==> p[..i] == q[..i] && p[i] == q[i]
  {
    assert p[..i + 1] == p[..i] + [p[i]] && q[..i + 1] == q[..i] + [q[i]];
  }

  lemma SameBitsNext(p: seq<bv8>, q: seq<bv8>, i: nat, j: nat)
    requires i < |p| && i < |q| && j < 8
    ensures SameBits(p, q, i, j + 1) <==>
      SameBits(p, q, i, j) && (Shifted(p[i], 7 - j) & 1 == 1 <==> Shifted(q[i], 7 - j) & 1 == 1)
  {
    AllShifted(p[i] ^ q[i]);
    SameTopNext(p[i], q[i], j);
  }

  lemma SameBitsAll(p: seq<bv8>, q: seq<bv8>, i: nat)
    requires i < |p| && i < |q|
    ensures SameBits(p, q, i, 8) <==> SameBits(p, q, i + 1, 0)
  {
    SameTopAll(p[i], q[i]);
    OneMoreByte(p, q, i);
  }

  lemma BitOf(ip: seq<bv8>, i: nat, j: nat)
    requires i < |ip| && j < 8
    ensures BitAt(ip, 8 * i + j) <==> Shifted(ip[i], 7 - j) & 1 == 1
  {
  }

  lemma PathsNext(p: seq<bv8>, q: seq<bv8>, i: nat, j: nat, n: nat)
    requires i < |p| && i < |q| && j < 8 && n == 8 * i + j
    requires Prefix(p, n) == Prefix(q, n) <==> SameBits(p, q, i, j)
    ensures Prefix(p, n + 1) == Prefix(q, n + 1) <==> SameBits(p, q, i, j + 1)
  {
    SameBitsNext(p, q, i, j);
    BitOf(p, i, j);
    BitOf(q, i, j);
    PrefixNext(p, n);
    PrefixNext(q, n);
  }

  lemma {:induction false} PathsAt(p: seq<bv8>, q: seq<bv8>, i: nat, j: nat, n: nat)
    requires i <= |p| && i <= |q| && j <= 8 && n == 8 * i + j && (j > 0 ==> i < |p| && i < |q|)
    ensures Prefix(p, n) == Prefix(q, n) <==> SameBits(p, q, i, j)
    decreases i, j
  {
    if j > 0 {
      PathsAt(p, q, i, j - 1, n - 1);
      PathsNext(p, q, i, j - 1, n - 1);
    } else if i > 0 {
      PathsAt(p, q, i - 1, 8, n);
      SameBitsAll(p, q, i - 1);
    }
  }

  /** The bits lead along the same path exactly when the addresses agree. */
  lemma PrefixIff(p: seq<bv8>, q: seq<bv8>, n: nat)
    requires n <= 8 * |p| && n <= 8 * |q|
    ensures Prefix(p, n) == Prefix(q, n) <==> SamePrefix(p, q, n)
  {
    PathsAt(p, q, n / 8, n % 8, n);
  }

  /** One insertion: the first `cidr` bits of `ip` get a value. An empty prefix (a `cidr` of zero or less) leaves no
      value behind. */
  datatype Entry = Entry(ip: seq<bv8>, cidr: nat, value: nat)

  type Insertion = e: Entry | e.cidr <= 8 * |e.ip| witness Entry([], 0, 0)

  /** The same by its path. */
  datatype Put = Put(prefix: Bits, value: nat)

  function PutsOf(entries: seq<Insertion>): (puts: seq<Put>)
    ensures |puts| == |entries|
  {
    seq(|entries|, k requires 0 <= k < |entries| => Put(Prefix(entries[k].ip, entries[k].cidr), entries[k].value))
  }

  /** The first insertion of `p`, if any. */
  ghost predicate FirstPut(puts: seq<Put>, p: Bits, k: nat) {
    k < |puts| && puts[k].prefix == p && forall j :: 0 <= j < k ==> puts[j].prefix != p
  }

  ghost predicate Inserted(puts: seq<Put>, p: Bits) {
    p.Down? && exists k :: 0 <= k < |puts| && puts[k].prefix == p
  }

  /** The values the insertions leave: the first one for every non-empty prefix. */
  function Values(puts: seq<Put>): (m: map<Bits, nat>)
  {
    if puts == [] then map[]
    else
      var m, last := Values(puts[..|puts| - 1]), puts[|puts| - 1];
      if last.prefix.Empty? || last.prefix in m then m else m[last.prefix := last.value]
  }

  /** First writer wins. */
  lemma {:induction false} ValuesAreFirst(puts: seq<Put>, p: Bits)
    ensures p in Values(puts) <==> Inserted(puts, p)
    ensures p in Values(puts) ==> exists k: nat :: FirstPut(puts, p, k) && Values(puts)[p] == puts[k].value
  {
    if puts != [] {
      var before, last := puts[..|puts| - 1], puts[|puts| - 1];
      ValuesAreFirst(before, p);
      if p in Values(before) {
        var k: nat :| FirstPut(before, p, k) && Values(before)[p] == before[k].value;
        assert FirstPut(puts, p, k) && puts[k] == before[k];
      } else if last.prefix == p && p.Down? {
        assert FirstPut(puts, p, |puts| - 1);
      } else {
        assert !Inserted(before, p);
      }
    }
  }

  /** Every insertion so far was for the whole address space. */
  ghost predicate OnlyRoot(puts: seq<Put>) {
    forall k :: 0 <= k < |puts| ==> puts[k].prefix.Empty?
  }

  lemma OnlyRootMeansNoValues(puts: seq<Put>)
    ensures OnlyRoot(puts) <==> Values(puts) == map[]
    ensures Empty !in Values(puts)
  {
    ValuesAreFirst(puts, Empty);
    if OnlyRoot(puts) {
      forall p: Bits ensures p !in Values(puts) {
        ValuesAreFirst(puts, p);
      }
    }
    forall k | 0 <= k < |puts| && puts[k].prefix.Down? ensures Values(puts) != map[] {
      ValuesAreFirst(puts, puts[k].prefix);
    }
  }

  /** The answer to a query of `n` bits: the first value inserted for the shortest inserted prefix. */
  ghost predicate Answer(puts: seq<Put>, ip: seq<bv8>, n: nat, value: nat)
    requires n <= 8 * |ip|
  {
    exists l: nat, k: nat :: 0 < l <= n && FirstPut(puts, Prefix(ip, l), k) && puts[k].value == value
      && NoneInserted(puts, ip, l - 1)
  }

  /** No non-empty prefix of at most `n` bits of the query was inserted. */
  ghost predicate NoneInserted(puts: seq<Put>, ip: seq<bv8>, n: nat)
    requires n <= 8 * |ip|
  {
    forall l :: 0 < l <= n ==> !Inserted(puts, Prefix(ip, l))
  }

  // ---------------------------------------------------------------- addresses

  lemma {:induction false} PathLength(ip: seq<bv8>, n: nat)
    requires n <= 8 * |ip|
    ensures Depth(Prefix(ip, n)) == n
  {
    if n > 0 {
      PathLength(ip, n - 1);
    }
  }

  lemma SamePath(e: Insertion, ip: seq<bv8>, l: nat)
    requires l <= 8 * |ip|
    ensures Prefix(e.ip, e.cidr) == Prefix(ip, l) <==> e.cidr == l && SamePrefix(e.ip, ip, l)
  {
    PathLength(e.ip, e.cidr);
    PathLength(ip, l);
    if e.cidr == l {
      PrefixIff(e.ip, ip, l);
    }
  }

  /** The inserted prefix is one of the query of `n` bits. */
  predicate Covers(e: Insertion, ip: seq<bv8>, n: nat)
    requires n <= 8 * |ip|
  {
    0 < e.cidr <= n && SamePrefix(e.ip, ip, e.cidr)
  }

  ghost predicate SomeCovers(entries: seq<Insertion>, ip: seq<bv8>, n: nat)
    requires n <= 8 * |ip|
  {
    exists k :: 0 <= k < |entries| && Covers(entries[k], ip, n)
  }

  /** Of the insertions that cover the query, number `k` has the shortest prefix and is the first with it. */
  ghost predicate Decides(entries: seq<Insertion>, ip: seq<bv8>, n: nat, k: nat)
    requires n <= 8 * |ip|
  {
    && k < |entries| && Covers(entries[k], ip, n)
    && forall j :: 0 <= j < |entries| && Covers(entries[j], ip, n) ==>
         entries[k].cidr < entries[j].cidr || (entries[k].cidr == entries[j].cidr && k <= j)
  }

  lemma InsertedIff(entries: seq<Insertion>, ip: seq<bv8>, l: nat)
    requires 0 < l <= 8 * |ip|
    ensures Inserted(PutsOf(entries), Prefix(ip, l))
       <==> exists k :: 0 <= k < |entries| && entries[k].cidr == l && Covers(entries[k], ip, l)
  {
    var puts := PutsOf(entries);
    forall k | 0 <= k < |entries|
      ensures puts[k].prefix == Prefix(ip, l) <==> entries[k].cidr == l && Covers(entries[k], ip, l)
    {
      SamePath(entries[k], ip, l);
    }
    if k :| 0 <= k < |entries| && entries[k].cidr == l && Covers(entries[k], ip, l) {
      assert puts[k].prefix == Prefix(ip, l);
    }
  }

  lemma NoneInsertedIff(entries: seq<Insertion>, ip: seq<bv8>, n: nat)
    requires n <= 8 * |ip|
    ensures NoneInserted(PutsOf(entries), ip, n) <==> !SomeCovers(entries, ip, n)
  {
    forall l | 0 < l <= n
      ensures Inserted(PutsOf(entries), Prefix(ip, l))
         <==> exists k :: 0 <= k < |entries| && entries[k].cidr == l && Covers(entries[k], ip, l)
    {
      InsertedIff(entries, ip, l);
    }
    if k :| 0 <= k < |entries| && Covers(entries[k], ip, n) {
      assert Covers(entries[k], ip, entries[k].cidr);
      assert Inserted(PutsOf(entries), Prefix(ip, entries[k].cidr));
    }
    if l :| 0 < l <= n && Inserted(PutsOf(entries), Prefix(ip, l)) {
      var k :| 0 <= k < |entries| && entries[k].cidr == l && Covers(entries[k], ip, l);
      assert Covers(entries[k], ip, n);
    }
  }

  lemma NotEarlier(entries: seq<Insertion>, ip: seq<bv8>, l: nat, k: nat, j: nat)
    requires l <= 8 * |ip| && FirstPut(PutsOf(entries), Prefix(ip, l), k) && j < k && entries[j].cidr == l
    ensures !SamePrefix(entries[j].ip, ip, l)
  {
    SamePath(entries[j], ip, l);
    assert PutsOf(entries)[j].prefix == Prefix(entries[j].ip, entries[j].cidr);
  }

  lemma AnswerDecides(entries: seq<Insertion>, ip: seq<bv8>, n: nat, value: nat)
    requires n <= 8 * |ip| && Answer(PutsOf(entries), ip, n, value)
    ensures exists k: nat :: Decides(entries, ip, n, k) && entries[k].value == value
  {
    var puts := PutsOf(entries);
    var l: nat, k: nat :| 0 < l <= n && FirstPut(puts, Prefix(ip, l), k) && puts[k].value == value
      && NoneInserted(puts, ip, l - 1);
    SamePath(entries[k], ip, l);
    assert puts[k] == Put(Prefix(entries[k].ip, entries[k].cidr), entries[k].value);
    NoneInsertedIff(entries, ip, l - 1);
    forall j | 0 <= j < |entries| && Covers(entries[j], ip, n)
      ensures entries[k].cidr < entries[j].cidr || (entries[k].cidr == entries[j].cidr && k <= j)
    {
      assert !Covers(entries[j], ip, l - 1);
      if entries[j].cidr == l && j < k {
        NotEarlier(entries, ip, l, k, j);
      }
    }
    assert Decides(entries, ip, n, k);
  }

  function Depth(p: Bits): nat {
    if p.Empty? then 0 else Depth(p.parent) + 1
  }

  // ---------------------------------------------------------------- arena

  class Node {
    var left: Node?
    var right: Node?
    var value: nat
    var loaded: bool

    constructor ()
      ensures Blank()
    {
      left, right, value, loaded := null, null, 0, false;
    }

    predicate Blank()
      reads this
    {
      left == null && right == null && !loaded
    }
  }

  /** A block of nodes handed out one after the other; the last one is never used. */
  class TrieMemory {
    var index: nat
    var cells: array<Node>

    const CELL_SIZE := 32768

    ghost predicate Valid()
      reads this, cells, set k | 0 <= k < cells.Length :: cells[k]
    {
      && cells.Length == CELL_SIZE && index < CELL_SIZE
      && (forall j, k :: 0 <= j < k < CELL_SIZE ==> cells[j] != cells[k])
      && forall k :: index <= k < CELL_SIZE ==> cells[k].Blank()
    }

    constructor ()
      ensures Valid() && index == 0 && fresh(cells)
      ensures forall k :: 0 <= k < cells.Length ==> fresh(cells[k])
    {
      var first := new Node();
      var nodes := new Node[CELL_SIZE](_ => first);
      new;
      var k := 1;
      while k < CELL_SIZE
        invariant 1 <= k <= CELL_SIZE
        invariant fresh(nodes) && nodes[0] == first
        invariant forall j :: 0 <= j < k ==> fresh(nodes[j]) && nodes[j].Blank()
        invariant forall i, j :: 0 <= i < j < k ==> nodes[i] != nodes[j]
      {
        var node := new Node();
        nodes[k] := node;
        k := k + 1;
      }
      index, cells := 0, nodes;
    }

    predicate IsFull()
      reads this
    {
      index + 1 == CELL_SIZE
    }

    /** The next node, or null when the block is full. */
    method AllocNode() returns (node: Node?)
      requires Valid()
      modifies this
      ensures Valid() && cells == old(cells)
      ensures old(IsFull()) ==> node == null && index == old(index)
      ensures !old(IsFull()) ==> node == cells[old(index)] && index == old(index) + 1
    {
      node := null;
      if !IsFull() {
        node := cells[index];
        index := index + 1;
      }
    }
  }

  // ---------------------------------------------------------------- the tree

  /** `left` and `right` are the nodes at `p` extended by one bit. */
  ghost predicate Children(paths: map<Bits, Node>, p: Bits, left: Node?, right: Node?) {
    ChildAt(paths, Down(p, false), left) && ChildAt(paths, Down(p, true), right)
  }

  ghost predicate Linked(paths: map<Bits, Node>, p: Bits, n: Node)
    reads n`left, n`right
  {
    Children(paths, p, n.left, n.right)
  }

  ghost predicate ChildAt(paths: map<Bits, Node>, p: Bits, child: Node?) {
    if child == null then p !in paths else p in paths && paths[p] == child
  }

  ghost predicate At(paths: map<Bits, Node>, p: Bits, n: Node) {
    p in paths && paths[p] == n
  }

  ghost predicate HasParent(paths: map<Bits, Node>, p: Bits) {
    p.Down? ==> p.parent in paths
  }

  /** Paths are closed under prefixes, and no node ends two of them. */
  ghost predicate Unshared(paths: map<Bits, Node>) {
    && (forall p {:trigger HasParent(paths, p)} :: p in paths ==> HasParent(paths, p))
    && forall p, q :: p in paths && q in paths && paths[p] == paths[q] ==> p == q
  }

  ghost predicate RootAt(root: Node?, paths: map<Bits, Node>) {
    if root == null then paths == map[] else Empty in paths && paths[Empty] == root
  }

  /** The map gives the node at the end of each path: paths are closed under prefixes, children are
      where their bits say, and no node ends two paths, so there is no cycle and no sharing. */
  ghost predicate IsTree(root: Node?, paths: map<Bits, Node>)
    reads paths.Values`left, paths.Values`right
  {
    && RootAt(root, paths) && Unshared(paths)
    && forall p {:trigger Linked(paths, p, paths[p])} :: p in paths ==> Linked(paths, p, paths[p])
  }

  lemma UnsharedGrows(paths: map<Bits, Node>, p: Bits, bit: bool, next: Node)
    requires Unshared(paths) && p in paths && Down(p, bit) !in paths && forall q :: q in paths ==> paths[q] != next
    ensures Unshared(paths[Down(p, bit) := next])
  {
    var paths' := paths[Down(p, bit) := next];
    forall r | r in paths' ensures HasParent(paths', r) {
      assert r in paths ==> HasParent(paths, r);
    }
  }

  /** A new path ends in a leaf, becomes a child of its parent, and changes nothing elsewhere. */
  lemma NewLeaf(paths: map<Bits, Node>, q: Bits, next: Node)
    requires Unshared(paths) && q !in paths
    ensures Children(paths[q := next], q, null, null)
  {
    assert Down(q, false).parent == q == Down(q, true).parent;
    assert !HasParent(paths, Down(q, false)) && !HasParent(paths, Down(q, true));
    assert Depth(q) < Depth(Down(q, false)) && Depth(q) < Depth(Down(q, true));
  }

  lemma NewChild(paths: map<Bits, Node>, p: Bits, bit: bool, next: Node, left: Node?, right: Node?)
    requires Children(paths, p, left, right)
    ensures bit ==> Children(paths[Down(p, bit) := next], p, left, next)
    ensures !bit ==> Children(paths[Down(p, bit) := next], p, next, right)
  {
  }

  lemma OtherChildren(paths: map<Bits, Node>, p: Bits, bit: bool, next: Node, r: Bits, left: Node?, right: Node?)
    requires Children(paths, r, left, right) && r != p
    ensures Children(paths[Down(p, bit) := next], r, left, right)
  {
  }

  /** The loaded nodes and their values. */
  ghost predicate Holds(paths: map<Bits, Node>, m: map<Bits, nat>)
    reads paths.Values`loaded, paths.Values`value
  {
    && (forall p :: p in m ==> p in paths && paths[p].loaded && paths[p].value == m[p])
    && forall p :: p in paths && paths[p].loaded ==> p in m
  }

  /** A value is stored at `p`, unless there is one. */
  function Added(m: map<Bits, nat>, p: Bits, value: nat): map<Bits, nat> {
    if p in m then m else m[p := value]
  }

  lemma HoldsGrows(paths: map<Bits, Node>, paths': map<Bits, Node>, q: Bits, next: Node, m: map<Bits, nat>)
    requires Holds(paths, m) && (paths' == paths || (q !in paths && paths' == paths[q := next] && !next.loaded))
    ensures Holds(paths', m)
  {
  }

  class CidrTrieTree {
    var root: Node?
    var memoryCells: seq<TrieMemory>

    /** The node at the end of each path. No node ends two paths, so the tree has no cycle and no sharing. */
    ghost var paths: map<Bits, Node>
    ghost var puts: seq<Insertion>
    ghost var Repr: set<object>

    /** The arena is sound, and no node still to be handed out is `n`. */
    ghost predicate Arena()
      reads `memoryCells, `Repr, Repr
    {
      && this !in Repr
      && (forall c | c in memoryCells ::
            c in Repr && c.cells in Repr && forall k :: 0 <= k < c.cells.Length ==> c.cells[k] in Repr)
      && (memoryCells != [] ==> memoryCells[|memoryCells| - 1].Valid())
    }

    ghost predicate Taken(n: Node)
      reads `memoryCells, memoryCells, set c | c in memoryCells :: c.cells
    {
      memoryCells != [] ==>
        var last := memoryCells[|memoryCells| - 1];
        forall k :: last.index <= k < last.cells.Length ==> last.cells[k] != n
    }

    /** The shape of the tree: what every step of an insertion keeps. */
    ghost predicate Shape()
      reads `root, `memoryCells, `paths, `Repr, Repr
    {
      Arena() && Placed(paths) && IsTree(root, paths)
    }

    /** The nodes of the tree have been handed out. */
    ghost predicate Placed(paths: map<Bits, Node>)
      reads `memoryCells, `Repr, memoryCells, set c | c in memoryCells :: c.cells
    {
      forall p :: p in paths ==> paths[p] in Repr && Taken(paths[p])
    }

    ghost predicate Valid()
      reads this, Repr
    {
      && Shape()
      && (root == null <==> puts == [])
      && Holds(paths, Values(PutsOf(puts)))
      && (forall p :: p in paths && p.Down? ==> Values(PutsOf(puts)) != map[])
    }

    constructor ()
      ensures Valid() && fresh(Repr) && puts == []
    {
      root, memoryCells, paths, puts := null, [], map[], [];
      Repr := {};
    }

    /** Opens a new block when there is none or the last one is full. */
    method MakeRoom()
      requires Shape()
      modifies this
      ensures Shape() && fresh(Repr - old(Repr)) && old(Repr) <= Repr
      ensures root == old(root) && paths == old(paths) && puts == old(puts)
      ensures memoryCells != [] && !memoryCells[|memoryCells| - 1].IsFull()
      ensures memoryCells == old(memoryCells) || fresh(memoryCells[|memoryCells| - 1])
    {
      if memoryCells == [] || memoryCells[|memoryCells| - 1].IsFull() {
        OpenBlock();
      }
    }

    method OpenBlock()
      requires Shape()
      modifies this
      ensures Shape() && fresh(Repr - old(Repr)) && old(Repr) <= Repr
      ensures root == old(root) && paths == old(paths) && puts == old(puts)
      ensures memoryCells != [] && !memoryCells[|memoryCells| - 1].IsFull()
      ensures fresh(memoryCells[|memoryCells| - 1])
    {
      var cells := new TrieMemory();
      ghost var nodes := set k | 0 <= k < cells.cells.Length :: cells.cells[k];
      assert forall k :: 0 <= k < cells.cells.Length ==> cells.cells[k] in nodes;
      memoryCells := memoryCells + [cells];
      Repr := Repr + {cells, cells.cells} + nodes;
      assert memoryCells[|memoryCells| - 1] == cells;
      assert Arena();
      assert Placed(paths);
    }

    /** Takes a node from the arena. It is blank and belongs to no path yet. */
    method CreateNode() returns (node: Node)
      requires Shape()
      modifies this, memoryCells
      ensures Shape() && fresh(Repr - old(Repr)) && old(Repr) <= Repr
      ensures root == old(root) && paths == old(paths) && puts == old(puts)
      ensures node in Repr && node.Blank() && Taken(node) && forall p :: p in paths ==> paths[p] != node
    {
      MakeRoom();
      var last := memoryCells[|memoryCells| - 1];
      ghost var next := last.cells[last.index];
      assert forall p :: p in paths ==> Taken(paths[p]) && paths[p] != next;
      var taken := last.AllocNode();
      node := taken;
    }

    /** Writes to a node of the tree leave the arena as it is. */
    method SetChild(current: Node, bit: bool, next: Node)
      requires Arena() && current in Repr && Taken(current)
      modifies current`left, current`right
      ensures Arena()
      ensures current.left == (if bit then old(current.left) else next)
      ensures current.right == (if bit then next else old(current.right))
    {
      if bit {
        current.right := next;
      } else {
        current.left := next;
      }
    }

    method SetValue(current: Node, value: nat)
      requires Arena() && current in Repr && Taken(current)
      modifies current`loaded, current`value
      ensures Arena() && current.loaded && current.value == if old(current.loaded) then old(current.value) else value
    {
      if !current.loaded {
        current.loaded := true;
        current.value := value;
      }
    }

    /** Hangs a blank node below the node at `p`. */
    method Attach(current: Node, ghost p: Bits, bit: bool, next: Node)
      requires Shape() && At(paths, p, current) && (if bit then current.right else current.left) == null
      requires next in Repr && Taken(next) && next.Blank() && forall q :: q in paths ==> paths[q] != next
      modifies `paths, current`left, current`right
      ensures Shape() && Down(p, bit) !in old(paths) && paths == old(paths)[Down(p, bit) := next]
    {
      ghost var before, q := paths, Down(p, bit);
      assert Linked(before, p, current);
      SetChild(current, bit, next);
      paths := paths[q := next];
      UnsharedGrows(before, p, bit, next);
      forall r | r in paths ensures Linked(paths, r, paths[r]) {
        if r == q {
          NewLeaf(before, q, next);
        } else if r == p {
          NewChild(before, p, bit, next, old(current.left), old(current.right));
        } else {
          assert before[r] != current;
          assert old(Linked(before, r, before[r]));
          OtherChildren(before, p, bit, next, r, before[r].left, before[r].right);
        }
      }
    }

    /** The child of `current` on the side of `bit`, created when there is none. */
    method Descend(current: Node, ghost p: Bits, bit: bool) returns (next: Node)
      requires Shape() && At(paths, p, current)
      modifies this, memoryCells, current`left, current`right
      ensures Shape() && fresh(Repr - old(Repr)) && old(Repr) <= Repr
      ensures root == old(root) && puts == old(puts)
      ensures At(paths, Down(p, bit), next)
      ensures paths == old(paths)
        || (Down(p, bit) !in old(paths) && paths == old(paths)[Down(p, bit) := next] && !next.loaded)
    {
      var child := if bit then current.right else current.left;
      assert Linked(paths, p, current);
      if child != null {
        return child;
      }
      next := CreateNode();
      Attach(current, p, bit, next);
    }

    /** Creates the root of an empty tree. */
    method PlantRoot()
      requires Shape() && root == null
      modifies this, memoryCells
      ensures Shape() && fresh(Repr - old(Repr)) && old(Repr) <= Repr
      ensures root != null && !root.loaded && paths == map[Empty := root] && puts == old(puts)
    {
      root := CreateNode();
      paths := map[Empty := root];
    }

    /** Stores a value at the node at `p`, unless it has one. */
    method Load(current: Node, ghost p: Bits, value: nat, ghost m: map<Bits, nat>)
      requires Shape() && At(paths, p, current) && Holds(paths, m)
      modifies current`loaded, current`value
      ensures Shape() && Holds(paths, Added(m, p, value))
    {
      SetValue(current, value);
    }

    /** One round of an insertion: a step down from `p` to `q` and, on the last bit, the value. */
    method PutStep(current: Node, ghost p: Bits, bit: bool, ghost q: Bits, last: bool, value: nat,
                   ghost m: map<Bits, nat>)
      returns (next: Node)
      requires Shape() && At(paths, p, current) && q == Down(p, bit) && Holds(paths, m)
      modifies this, Repr
      ensures Shape() && fresh(Repr - old(Repr)) && old(Repr) <= Repr
      ensures root == old(root) && puts == old(puts) && At(paths, q, next)
      ensures Holds(paths, if last then Added(m, q, value) else m)
    {
      ghost var before := paths;
      next := Descend(current, p, bit);
      HoldsGrows(before, paths, q, next, m);
      if last {
        Load(next, q, value, m);
      }
    }

    /** The round for bit `i` of an address. */
    method PutBit(current: Node, ip: seq<bv8>, i: nat, last: bool, value: nat, ghost m: map<Bits, nat>)
      returns (next: Node)
      requires i < 8 * |ip| && Shape() && At(paths, Prefix(ip, i), current) && Holds(paths, m)
      modifies this, Repr
      ensures Shape() && fresh(Repr - old(Repr)) && old(Repr) <= Repr
      ensures root == old(root) && puts == old(puts) && At(paths, Prefix(ip, i + 1), next)
      ensures Holds(paths, if last then Added(m, Prefix(ip, i + 1), value) else m)
    {
      PrefixNext(ip, i);
      var bit := IsSet(ip[i / 8], 7 - i % 8);
      next := PutStep(current, Prefix(ip, i), bit, Prefix(ip, i + 1), last, value, m);
    }

    /** The loop of an insertion: descends along the prefix, creating what is missing, and
        stores the value at its end. */
    method PutBelowRoot(ip: seq<bv8>, cidr: nat, value: nat, ghost m: map<Bits, nat>)
      requires Shape() && root != null && Holds(paths, m) && 0 < cidr <= 8 * |ip|
      modifies this, Repr
      ensures Shape() && fresh(Repr - old(Repr))
      ensures root == old(root) && puts == old(puts)
      ensures Holds(paths, Added(m, Prefix(ip, cidr), value))
    {
      var current: Node := root;
      var i: nat := 0;
      ghost var held := m;
      while i < cidr
        invariant i <= cidr && held == if i == cidr then Added(m, Prefix(ip, i), value) else m
        invariant Shape() && root == old(root) && puts == old(puts)
        invariant fresh(Repr - old(Repr)) && old(Repr) <= Repr
        invariant At(paths, Prefix(ip, i), current) && Holds(paths, held)
      {
        var last := i + 1 == cidr;
        held := if last then Added(m, Prefix(ip, i + 1), value) else m;
        current := PutBit(current, ip, i, last, value, m);
        i := i + 1;
      }
    }

    /** `trieNodePut`: the whole effect is one more entry in the history. */
    method TrieNodePut(ip: seq<bv8>, cidr: int, value: nat)
      requires Valid() && cidr <= 8 * |ip|
      modifies this, Repr
      ensures Valid() && fresh(Repr - old(Repr))
      ensures puts == old(puts) + [Entry(ip, if cidr < 0 then 0 else cidr, value)]
    {
      ghost var m, entry: Insertion := Values(PutsOf(puts)), Entry(ip, if cidr < 0 then 0 else cidr, value);
      EntriesGrow(puts, entry);
      puts := puts + [entry];
      PutPath(ip, cidr, value, m);
    }

    method PutPath(ip: seq<bv8>, cidr: int, value: nat, ghost m: map<Bits, nat>)
      requires Shape() && Holds(paths, m) && cidr <= 8 * |ip|
      modifies this, Repr
      ensures Shape() && fresh(Repr - old(Repr)) && root != null && puts == old(puts)
      ensures var p := Prefix(ip, if cidr < 0 then 0 else cidr);
        Holds(paths, if p.Empty? then m else Added(m, p, value))
      ensures cidr <= 0 ==> paths == old(paths) || paths.Keys == {Empty}
    {
      if root == null {
        PlantRoot();
      }
      if 0 < cidr {
        PutBelowRoot(ip, cidr, value, m);
      }
    }

    /** The test of a bit. */
    static method IsSet(b: bv8, u: nat) returns (bit: bool)
      requires u < 8
      ensures bit <==> Shifted(b, u) & 1 == 1
    {
      ShiftedIs(b, u);
      LowBit(b >> u);
      bit := (b >> u) & 1 > 0;
    }

    /** One step down of a search, on bit `u` of byte `i`, which is bit `d` of the address. */
    method Child(current: Node, ip: seq<bv8>, i: nat, u: nat, ghost d: nat) returns (child: Node?)
      requires IsTree(root, paths) && i < |ip| && u < 8 && d == 8 * i + 7 - u
      requires At(paths, Prefix(ip, d), current)
      ensures ChildAt(paths, Prefix(ip, d + 1), child)
    {
      assert Linked(paths, Prefix(ip, d), current);
      BitOf(ip, i, 7 - u);
      PrefixNext(ip, d);
      var bit := IsSet(ip[i], u);
      if bit {
        child := current.right;
      } else {
        child := current.left;
      }
    }

    /** The inner loop of a search, over the bits of byte `i`. */
    method SearchByte(start: Node, ip: seq<bv8>, i: nat) returns (next: Node?, value: Option<nat>)
      requires Shape() && Holds(paths, Values(PutsOf(puts))) && i < |ip|
      requires At(paths, Prefix(ip, 8 * i), start) && NoneInserted(PutsOf(puts), ip, 8 * i)
      ensures value.Some? ==> next != null && Answer(PutsOf(puts), ip, 8 * i + 8, value.value)
      ensures value == None && next == null ==> forall n :: 8 * i <= n <= 8 * |ip| ==> NoneInserted(PutsOf(puts), ip, n)
      ensures value == None && next != null ==>
        At(paths, Prefix(ip, 8 * i + 8), next) && NoneInserted(PutsOf(puts), ip, 8 * i + 8)
    {
      var current: Node, u: nat := start, 8;
      ghost var d: nat, end: nat := 8 * i, 8 * i + 8;
      while u > 0
        invariant u <= 8 && d == end - u
        invariant At(paths, Prefix(ip, d), current) && NoneInserted(PutsOf(puts), ip, d)
      {
        u := u - 1;
        var child := Child(current, ip, i, u, d);
        d := d + 1;
        ValuesAreFirst(PutsOf(puts), Prefix(ip, d));
        if child == null {
          NothingAlong(root, paths, PutsOf(puts), ip, d);
          return null, None;
        }
        current := child;
        if current.loaded {
          AnswerAt(PutsOf(puts), ip, d, end, current.value);
          return current, Some(current.value);
        }
        NoneInsertedStep(PutsOf(puts), ip, d);
      }
      return current, None;
    }

    /** `trieNodeSearch`: `n` counts bytes. An empty tree finds nothing, a lone root finds everything and stores no
        value, and otherwise the insertion with the shortest prefix that covers the query decides. */
    method TrieNodeSearch(ip: seq<bv8>, n: int) returns (found: bool, value: Option<nat>)
      requires Valid() && n <= |ip|
      ensures puts == [] ==> !found && value == None
      ensures puts != [] && (forall e :: e in puts ==> e.cidr == 0) ==> found && value == None
      ensures (exists e :: e in puts && e.cidr > 0) ==> var bits := if n < 0 then 0 else 8 * n;
        && found == SomeCovers(puts, ip, bits)
        && if found then exists k: nat :: Decides(puts, ip, bits, k) && value == Some(puts[k].value) else value == None
    {
      found, value := Search(ip, n);
      OnlyRootIff(puts);
      NoneInsertedIff(puts, ip, if n < 0 then 0 else 8 * n);
      if found && !OnlyRoot(PutsOf(puts)) {
        AnswerDecides(puts, ip, if n < 0 then 0 else 8 * n, value.value);
      }
    }

    /** The search, against the paths. */
    method Search(ip: seq<bv8>, n: int) returns (found: bool, value: Option<nat>)
      requires Valid() && n <= |ip|
      ensures puts == [] ==> !found && value == None
      ensures puts != [] && OnlyRoot(PutsOf(puts)) ==> found && value == None
      ensures !OnlyRoot(PutsOf(puts)) ==> var bits := if n < 0 then 0 else 8 * n;
        && found == !NoneInserted(PutsOf(puts), ip, bits)
        && if found then value.Some? && Answer(PutsOf(puts), ip, bits, value.value) else value == None
    {
      OnlyRootMeansNoValues(PutsOf(puts));
      if root == null {
        return false, None;
      }
      if root.left == null && root.right == null {
        OnlyRootHere(root, paths, PutsOf(puts));
        return true, None;
      }
      MoreThanRoot(root, paths);
      found, value := SearchBytes(ip, n);
    }

    /** The loops of the search. */
    method SearchBytes(ip: seq<bv8>, n: int) returns (found: bool, value: Option<nat>)
      requires Shape() && Holds(paths, Values(PutsOf(puts))) && root != null && n <= |ip|
      ensures var bits := if n < 0 then 0 else 8 * n;
        && found == !NoneInserted(PutsOf(puts), ip, bits)
        && if found then value.Some? && Answer(PutsOf(puts), ip, bits, value.value) else value == None
    {
      var current: Node := root;
      var i := 0;
      while i < n
        invariant 0 <= i && (i <= n || i == 0)
        invariant At(paths, Prefix(ip, 8 * i), current)
        invariant NoneInserted(PutsOf(puts), ip, 8 * i)
      {
        var next, v := SearchByte(current, ip, i);
        if next == null {
          return false, None;
        }
        if v.Some? {
          AnswerExtends(PutsOf(puts), ip, 8 * i + 8, 8 * n, v.value);
          return true, v;
        }
        current := next;
        i := i + 1;
      }
      return false, None;
    }

    /** `empty`: nothing has been inserted since the last `Clear`. */
    predicate IsEmpty()
      requires Valid()
      reads this, Repr
      ensures IsEmpty() <==> puts == []
    {
      root == null
    }

    method Clear()
      requires Valid()
      modifies this
      ensures Valid() && puts == []
    {
      memoryCells, root := [], null;
      paths, puts := map[], [];
    }
  }

  /** Below a missing node there is nothing. */
  lemma {:induction false} NothingBelow(root: Node?, paths: map<Bits, Node>, ip: seq<bv8>, n: nat, m: nat)
    requires IsTree(root, paths) && n <= m <= 8 * |ip| && Prefix(ip, n) !in paths
    ensures Prefix(ip, m) !in paths
  {
    if n < m {
      NothingBelow(root, paths, ip, n, m - 1);
      assert !HasParent(paths, Prefix(ip, m));
    }
  }

  /** A root without children is the whole tree. */
  lemma {:induction false} LoneRoot(root: Node, paths: map<Bits, Node>, p: Bits)
    requires IsTree(root, paths) && root.left == null && root.right == null
    ensures p.Down? ==> p !in paths
  {
    if p.Down? {
      LoneRoot(root, paths, p.parent);
      if p.parent.Empty? {
        assert Linked(paths, Empty, root);
      } else {
        assert !HasParent(paths, p);
      }
    }
  }

  /** The search that stops at a root without children stops exactly when only the root was inserted. */
  lemma OnlyRootHere(root: Node, paths: map<Bits, Node>, puts: seq<Put>)
    requires IsTree(root, paths) && root.left == null && root.right == null
    requires Holds(paths, Values(puts))
    ensures OnlyRoot(puts)
  {
    OnlyRootMeansNoValues(puts);
    forall p ensures p !in Values(puts) {
      LoneRoot(root, paths, p);
    }
  }

  lemma MoreThanRoot(root: Node, paths: map<Bits, Node>)
    requires IsTree(root, paths) && (root.left != null || root.right != null)
    ensures exists p :: p in paths && p.Down?
  {
    assert Linked(paths, Empty, root);
    assert Down(Empty, false) in paths || Down(Empty, true) in paths;
  }

  lemma LowBit(b: bv8)
    ensures b & 1 == 1 <==> b & 1 > 0
  {
  }

  /** Below a missing prefix the query can meet no value. */
  lemma NothingAlong(root: Node?, paths: map<Bits, Node>, puts: seq<Put>, ip: seq<bv8>, d: nat)
    requires IsTree(root, paths) && Holds(paths, Values(puts)) && 0 < d <= 8 * |ip|
    requires NoneInserted(puts, ip, d - 1) && Prefix(ip, d) !in paths
    ensures forall n :: d - 1 <= n <= 8 * |ip| ==> NoneInserted(puts, ip, n)
  {
    forall l: nat | d <= l <= 8 * |ip| ensures !Inserted(puts, Prefix(ip, l)) {
      NothingBelow(root, paths, ip, d, l);
      ValuesAreFirst(puts, Prefix(ip, l));
    }
  }

  lemma NoneInsertedStep(puts: seq<Put>, ip: seq<bv8>, d: nat)
    requires 0 < d <= 8 * |ip| && NoneInserted(puts, ip, d - 1) && !Inserted(puts, Prefix(ip, d))
    ensures NoneInserted(puts, ip, d)
  {
  }

  lemma AnswerAt(puts: seq<Put>, ip: seq<bv8>, d: nat, n: nat, value: nat)
    requires 0 < d <= n <= 8 * |ip| && NoneInserted(puts, ip, d - 1)
    requires Prefix(ip, d) in Values(puts) && Values(puts)[Prefix(ip, d)] == value
    ensures Answer(puts, ip, n, value)
  {
    ValuesAreFirst(puts, Prefix(ip, d));
  }

  /** An answer to a query is one to every longer query, which then has an inserted prefix. */
  lemma AnswerExtends(puts: seq<Put>, ip: seq<bv8>, n: nat, m: nat, value: nat)
    requires n <= m <= 8 * |ip| && Answer(puts, ip, n, value)
    ensures Answer(puts, ip, m, value) && !NoneInserted(puts, ip, m)
  {
    var l: nat, k: nat :| 0 < l <= n && FirstPut(puts, Prefix(ip, l), k) && puts[k].value == value
      && NoneInserted(puts, ip, l - 1);
    assert Inserted(puts, Prefix(ip, l));
  }

  lemma ValuesGrow(puts: seq<Put>, entry: Put)
    ensures var m := Values(puts);
      Values(puts + [entry]) == if entry.prefix.Empty? then m else Added(m, entry.prefix, entry.value)
  {
    assert (puts + [entry])[..|puts|] == puts;
  }

  lemma EntriesGrow(entries: seq<Insertion>, e: Insertion)
    ensures var m, p := Values(PutsOf(entries)), Prefix(e.ip, e.cidr);
      Values(PutsOf(entries + [e])) == if p.Empty? then m else Added(m, p, e.value)
  {
    assert PutsOf(entries + [e]) == PutsOf(entries) + [Put(Prefix(e.ip, e.cidr), e.value)];
    ValuesGrow(PutsOf(entries), Put(Prefix(e.ip, e.cidr), e.value));
  }

  lemma OnlyRootIff(entries: seq<Insertion>)
    ensures OnlyRoot(PutsOf(entries)) <==> forall e :: e in entries ==> e.cidr == 0
  {
    assert forall k :: 0 <= k < |entries| ==> (PutsOf(entries)[k].prefix.Empty? <==> entries[k].cidr == 0);
  }
}
