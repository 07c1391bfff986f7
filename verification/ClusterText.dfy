/** What the lines of `cluster nodes` say, in terms of their bytes: 32 separates the fields, 64 the address from the
    port of the cluster bus, 45 the ends of a range, and 91 begins a migrating slot. */
module ClusterText {
  import opened Basics
  import opened DecimalText
  import opened Slots
  import opened Cluster

  /** A slot alone. */
  lemma OneSlot(item: Text, atoi: Text -> Option<int>, v: int)
    requires 45 !in item && atoi(item) == Some(v)
    ensures ItemRange(item, atoi) == if 0 <= v < 16384 then Some(Range(v, v)) else None
  {
    PiecesPair(item, 45);
  }

  /** A range, whose ends must be in order. */
  lemma SlotRange(a: Text, b: Text, atoi: Text -> Option<int>, first: int, last: int)
    requires 45 !in a && 45 !in b && atoi(a) == Some(first) && atoi(b) == Some(last)
    ensures ItemRange(a + [45] + b, atoi) == if 0 <= first <= last < 16384 then Some(Range(first, last)) else None
  {
    PiecesAppend(a, 45, b);
    PiecesAppend(b, 45, []);
  }

  /** What holds no number, or more than two. */
  lemma NoRange(a: Text, b: Text, c: Text, atoi: Text -> Option<int>)
    requires 45 !in a && 45 !in b
    ensures atoi(a) == None ==> ItemRange(a, atoi) == None
    ensures atoi(a) == None || atoi(b) == None ==> ItemRange(a + [45] + b, atoi) == None
    ensures ItemRange(a + [45] + (b + [45] + c), atoi) == None
  {
    PiecesPair(a, 45);
    PiecesAppend(a, 45, b);
    PiecesAppend(b, 45, []);
    PiecesAppend(a, 45, b + [45] + c);
    PiecesAppend(b, 45, c);
  }

  /** An empty item and a migrating slot end the line. */
  lemma ItemsEnd(items: seq<Text>, addr: Text, atoi: Text -> Option<int>)
    requires items == [] || items[0] == [] || items[0][0] == 91
    ensures Items(items, addr, atoi) == Parsed([], true)
  {
  }

  /** Every other item gives its slots to the address of the line, or ends the whole. */
  lemma ItemsNext(items: seq<Text>, addr: Text, atoi: Text -> Option<int>)
    requires items != [] && items[0] != [] && items[0][0] != 91
    ensures match ItemRange(items[0], atoi)
      case None => Items(items, addr, atoi) == Parsed([], false)
      case Some(r) =>
        var rest := Items(items[1..], addr, atoi);
        Items(items, addr, atoi) == Parsed([Write(r, addr)] + rest.writes, rest.ok)
  {
  }

  lemma ContainsIff(t: Text, part: Text)
    ensures Contains(t, part) <==> exists a: Text, b: Text :: t == a + part + b
  {
    if Contains(t, part) {
      var k: int :| 0 <= k <= |t| - |part| && FoundAt(t, part, k);
      assert t == t[..k] + part + t[k + |part|..];
    }
    if a: Text, b: Text :| t == a + part + b {
      assert FoundAt(t, part, |a|);
    }
  }

  /** Short lines, and lines whose flags do not hold the word "master", say nothing. */
  lemma LineSkipped(line: Text, reach: Text -> bool, atoi: Text -> Option<int>)
    requires var f := Pieces(line, 32);
      |f| < 9 || forall a: Text, b: Text :: f[2] != a + [109, 97, 115, 116, 101, 114] + b
    ensures Line(line, reach, atoi) == Parsed([], true)
  {
    if |Pieces(line, 32)| >= 9 {
      ContainsIff(Pieces(line, 32)[2], [109, 97, 115, 116, 101, 114]);
    }
  }

  ghost predicate IsMaster(line: Text) {
    var f := Pieces(line, 32);
    |f| >= 9 && exists a: Text, b: Text :: f[2] == a + [109, 97, 115, 116, 101, 114] + b
  }

  /** The line of a master gives the slots of its items to the part of its address before the first "@"; a second one
      or a client that cannot be made ends the whole. */
  lemma MasterLineIs(line: Text, reach: Text -> bool, atoi: Text -> Option<int>, host: Text, port: Text, more: Text)
    requires IsMaster(line) && 64 !in host && 64 !in port
    requires Pieces(line, 32)[1] in {host, host + [64] + port, host + [64] + (port + [64] + more)}
    ensures var f := Pieces(line, 32);
      Line(line, reach, atoi)
      == if (f[1] == host || f[1] == host + [64] + port) && reach(host) then Items(f[8..], host, atoi)
         else Parsed([], false)
  {
    var f := Pieces(line, 32);
    ContainsIff(f[2], [109, 97, 115, 116, 101, 114]);
    PiecesAppend(host, 64, port);
    PiecesAppend(host, 64, port + [64] + more);
    PiecesAppend(port, 64, more);
    PiecesAppend(port, 64, []);
    if f[1] == host + [64] + (port + [64] + more) {
      assert |Pieces(f[1], 64)| > 2;
      assert f[1] != host && f[1] != host + [64] + port;
    }
  }
}
