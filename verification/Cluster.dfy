/** Routing in `TairClusterAsyncClient`: from the text of `cluster nodes` to the client of every slot.

    Splitting is `Slots.Pieces`; what `SimpleAtoi` reads from a text and which addresses can be connected
    to are parameters, about which nothing is assumed. A client is known by its address, as
    `client_map_` holds one for each. */
module Cluster {
  import opened Basics
  import opened DecimalText
  import opened Slots
  import KeyHash

  type Text = seq<byte>

  const NEWLINE: byte := 10
  const SPACE: byte := 32
  const AT: byte := 64
  const BRACKET: byte := 91
  const MASTER: Text := [109, 97, 115, 116, 101, 114]

  /** `flags.find("master") != npos` */
  predicate Contains(t: Text, part: Text) {
    exists k :: 0 <= k <= |t| - |part| && FoundAt(t, part, k)
  }

  predicate FoundAt(t: Text, part: Text, k: int)
    requires 0 <= k <= |t| - |part|
  {
    t[k..k + |part|] == part
  }

  /** The slots of a range go to the client of an address. */
  datatype Write = Write(slots: Range, addr: Text)

  /** The writes made before parsing ends, and whether it succeeds. */
  datatype Parsed = Parsed(writes: seq<Write>, ok: bool)

  function ItemRange(item: Text, atoi: Text -> Option<int>): (r: Option<Range>)
    ensures r.Some? ==> 0 <= r.value.first <= r.value.last < SLOTS_NUM
  {
    var pair := Pieces(item, MINUS);
    if |pair| == 2 then
      var first, last := atoi(pair[0]), atoi(pair[1]);
      if first.None? || last.None? then None
      else if 0 <= first.value <= last.value < SLOTS_NUM then Some(Range(first.value, last.value))
      else None
    else if |pair| == 1 then
      var slot := atoi(pair[0]);
      if slot.Some? && 0 <= slot.value < SLOTS_NUM then Some(Range(slot.value, slot.value)) else None
    else None
  }

  /** The slot items of a line, up to an empty one or a migrating slot. */
  function Items(items: seq<Text>, addr: Text, atoi: Text -> Option<int>): Parsed {
    if items == [] || items[0] == [] || items[0][0] == BRACKET then Parsed([], true)
    else
      match ItemRange(items[0], atoi)
      case None => Parsed([], false)
      case Some(r) => Then(Parsed([Write(r, addr)], true), Items(items[1..], addr, atoi))
  }

  function Then(p: Parsed, q: Parsed): Parsed {
    if p.ok then Parsed(p.writes + q.writes, q.ok) else p
  }

  /** One line: short lines and lines of other nodes than masters are skipped. */
  function Line(line: Text, reach: Text -> bool, atoi: Text -> Option<int>): Parsed {
    var items := Pieces(line, SPACE);
    if |items| < 9 || !Contains(items[2], MASTER) then Parsed([], true)
    else
      var addr := Pieces(items[1], AT);
      if |addr| > 2 || !reach(addr[0]) then Parsed([], false)
      else Items(items[8..], addr[0], atoi)
  }

  function Lines(lines: seq<Text>, reach: Text -> bool, atoi: Text -> Option<int>): Parsed {
    if lines == [] then Parsed([], true)
    else Then(Line(lines[0], reach, atoi), Lines(lines[1..], reach, atoi))
  }

  /** Whose a slot is after some writes, if any of them covers it: the last one that does. */
  function Owner(writes: seq<Write>, slot: int): Option<Text> {
    if writes == [] then None
    else
      var last := writes[|writes| - 1];
      if Holds(last.slots, slot) then Some(last.addr) else Owner(writes[..|writes| - 1], slot)
  }

  lemma {:induction false} OwnerAppend(a: seq<Write>, b: seq<Write>, slot: int)
    ensures Owner(a + b, slot) == if Owner(b, slot).Some? then Owner(b, slot) else Owner(a, slot)
  {
    if b == [] {
      assert a + b == a;
    } else {
      assert (a + b)[..|a + b| - 1] == a + b[..|b| - 1];
      OwnerAppend(a, b[..|b| - 1], slot);
    }
  }

  /** What a line says about a slot. */
  function LineOwner(line: Text, reach: Text -> bool, atoi: Text -> Option<int>, slot: int): Option<Text> {
    Owner(Line(line, reach, atoi).writes, slot)
  }

  /** The last line that says something about a slot decides. */
  lemma {:induction false} LastLineOwns(lines: seq<Text>, reach: Text -> bool, atoi: Text -> Option<int>, slot: int)
    requires Lines(lines, reach, atoi).ok
    ensures match Owner(Lines(lines, reach, atoi).writes, slot)
      case None => forall n :: 0 <= n < |lines| ==> LineOwner(lines[n], reach, atoi, slot) == None
      case Some(addr) => OwnedBy(lines, reach, atoi, slot, addr)
  {
    if lines != [] {
      var first, rest := Line(lines[0], reach, atoi), Lines(lines[1..], reach, atoi);
      OwnerAppend(first.writes, rest.writes, slot);
      LastLineOwns(lines[1..], reach, atoi, slot);
      if Owner(rest.writes, slot).Some? {
        var addr := Owner(rest.writes, slot).value;
        var n :| 0 <= n < |lines| - 1 && LastLine(lines[1..], reach, atoi, slot, addr, n);
        assert LastLine(lines, reach, atoi, slot, addr, n + 1);
      } else if Owner(first.writes, slot).Some? {
        assert LastLine(lines, reach, atoi, slot, Owner(first.writes, slot).value, 0);
      }
    }
  }

  /** After a successful parse, the client a slot was given is exactly the one of its last line. */
  lemma OwnedIff(lines: seq<Text>, reach: Text -> bool, atoi: Text -> Option<int>, slot: int, addr: Text)
    requires Lines(lines, reach, atoi).ok
    ensures OwnedBy(lines, reach, atoi, slot, addr) <==> Owner(Lines(lines, reach, atoi).writes, slot) == Some(addr)
  {
    LastLineOwns(lines, reach, atoi, slot);
    if OwnedBy(lines, reach, atoi, slot, addr) {
      var n: nat :| n < |lines| && LastLine(lines, reach, atoi, slot, addr, n);
      var owner := Owner(Lines(lines, reach, atoi).writes, slot);
      assert LineOwner(lines[n], reach, atoi, slot) == Some(addr);
      if owner.Some? {
        var m: nat :| m < |lines| && LastLine(lines, reach, atoi, slot, owner.value, m);
        assert m == n;
      }
    }
  }

  /** Some line says something about the slot. */
  ghost predicate Covers(lines: seq<Text>, reach: Text -> bool, atoi: Text -> Option<int>, slot: int) {
    exists n :: 0 <= n < |lines| && LineOwner(lines[n], reach, atoi, slot).Some?
  }

  lemma CoversIff(lines: seq<Text>, reach: Text -> bool, atoi: Text -> Option<int>, slot: int)
    requires Lines(lines, reach, atoi).ok
    ensures Covers(lines, reach, atoi, slot) <==> Owner(Lines(lines, reach, atoi).writes, slot).Some?
  {
    LastLineOwns(lines, reach, atoi, slot);
  }

  ghost predicate LastLine(lines: seq<Text>, reach: Text -> bool, atoi: Text -> Option<int>, slot: int, addr: Text,
                           n: nat) {
    && n < |lines| && LineOwner(lines[n], reach, atoi, slot) == Some(addr)
    && forall m :: n < m < |lines| ==> LineOwner(lines[m], reach, atoi, slot) == None
  }

  ghost predicate OwnedBy(lines: seq<Text>, reach: Text -> bool, atoi: Text -> Option<int>, slot: int, addr: Text) {
    exists n: nat :: n < |lines| && LastLine(lines, reach, atoi, slot, addr, n)
  }

  /** Parsing ends well and no slot is left without a client. */
  ghost predicate Succeeds(before: seq<Option<Text>>, lines: seq<Text>, reach: Text -> bool, atoi: Text -> Option<int>)
    requires |before| == SLOTS_NUM
  {
    var p := Lines(lines, reach, atoi);
    p.ok && forall i :: 0 <= i < SLOTS_NUM ==> Owner(p.writes, i).Some? || before[i].Some?
  }

  /** The slots after some writes. */
  ghost predicate Written(before: seq<Option<Text>>, after: seq<Option<Text>>, writes: seq<Write>) {
    && |before| == |after| == SLOTS_NUM
    && forall i :: 0 <= i < SLOTS_NUM ==>
         after[i] == if Owner(writes, i).Some? then Owner(writes, i) else before[i]
  }

  lemma WrittenTwice(a: seq<Option<Text>>, b: seq<Option<Text>>, c: seq<Option<Text>>, v: seq<Write>, w: seq<Write>)
    requires Written(a, b, v) && Written(b, c, w)
    ensures Written(a, c, v + w)
  {
    forall i | 0 <= i < SLOTS_NUM ensures c[i] == if Owner(v + w, i).Some? then Owner(v + w, i) else a[i] {
      OwnerAppend(v, w, i);
    }
  }

  // ---------------------------------------------------------------- the client

  class ClusterClient {
    const atoi: Text -> Option<int>
    const up: Text -> bool

    var clientMap: set<Text>
    const slotToClients: array<Option<Text>>

    predicate Shaped() {
      slotToClients.Length == SLOTS_NUM
    }

    /** Every slot that has a client has one of the map. */
    ghost predicate Routed()
      requires Shaped()
      reads this, slotToClients
    {
      forall i :: 0 <= i < SLOTS_NUM && slotToClients[i].Some? ==> slotToClients[i].value in clientMap
    }

    ghost predicate Empty()
      requires Shaped()
      reads slotToClients
    {
      forall i :: 0 <= i < SLOTS_NUM ==> slotToClients[i] == None
    }

    constructor (atoi: Text -> Option<int>, up: Text -> bool)
      ensures Shaped() && Empty() && Routed() && clientMap == {} && fresh(slotToClients)
      ensures this.atoi == atoi && this.up == up
    {
      this.atoi, this.up, clientMap := atoi, up, {};
      slotToClients := new Option<Text>[SLOTS_NUM](_ => None);
    }

    /** Which addresses `createClient` finds or connects to. */
    ghost function Reach(known: set<Text>): Text -> bool {
      addr => addr in known || up(addr)
    }

    /** `createClient` */
    method CreateClient(addr: Text) returns (ok: bool)
      modifies `clientMap
      ensures ok == (addr in old(clientMap) || up(addr))
      ensures clientMap == if ok then old(clientMap) + {addr} else old(clientMap)
    {
      ok := true;
      if addr !in clientMap {
        ok := up(addr);
        if ok {
          clientMap := clientMap + {addr};
        }
      }
    }

    method AssignRange(r: Range, addr: Text)
      requires Shaped() && 0 <= r.first <= r.last < SLOTS_NUM
      modifies slotToClients
      ensures Written(old(slotToClients[..]), slotToClients[..], [Write(r, addr)])
    {
      var i := r.first;
      while i <= r.last
        invariant r.first <= i <= r.last + 1
        invariant forall j :: 0 <= j < SLOTS_NUM ==>
          slotToClients[j] == if r.first <= j < i then Some(addr) else old(slotToClients[j])
      {
        slotToClients[i] := Some(addr);
        i := i + 1;
      }
      assert [Write(r, addr)][..0] == [];
    }

    /** One slot item. */
    method ParseItem(item: Text) returns (r: Option<Range>)
      ensures r == ItemRange(item, atoi)
    {
      r := None;
      var pair := Pieces(item, MINUS);
      if |pair| == 2 {
        var first, last := atoi(pair[0]), atoi(pair[1]);
        if first != None && last != None && !(first.value < 0 || first.value >= SLOTS_NUM || last.value < 0
            || last.value >= SLOTS_NUM || first.value > last.value) {
          r := Some(Range(first.value, last.value));
        }
      } else if |pair| == 1 {
        var slot := atoi(pair[0]);
        if slot != None && !(slot.value < 0 || slot.value >= SLOTS_NUM) {
          r := Some(Range(slot.value, slot.value));
        }
      }
    }

    /** The loop over the slot items of a line. */
    method ParseItems(items: seq<Text>, addr: Text) returns (ok: bool)
      requires Shaped() && addr in clientMap && |items| >= 8
      modifies slotToClients
      ensures ok == Items(items[8..], addr, atoi).ok && (old(Routed()) ==> Routed())
      ensures Written(old(slotToClients[..]), slotToClients[..], Items(items[8..], addr, atoi).writes)
    {
      ghost var before, writes: seq<Write> := slotToClients[..], [];
      var k := 8;
      while k < |items|
        invariant 8 <= k <= |items| && (old(Routed()) ==> Routed()) && Written(before, slotToClients[..], writes)
        invariant Items(items[8..], addr, atoi) == Then(Parsed(writes, true), Items(items[k..], addr, atoi))
      {
        assert items[k..][1..] == items[k + 1..];
        if items[k] == [] || items[k][0] == BRACKET {
          break;
        }
        var r := ParseItem(items[k]);
        if r == None {
          assert writes + [] == writes;
          return false;
        }
        ghost var middle, write := slotToClients[..], [Write(r.value, addr)];
        AssignRange(r.value, addr);
        if old(Routed()) {
          StillRouted(middle, write);
        }
        WrittenTwice(before, middle, slotToClients[..], writes, write);
        ThenTwice(writes, write, Items(items[k + 1..], addr, atoi));
        writes := writes + write;
        k := k + 1;
      }
      assert writes + [] == writes;
      ok := true;
    }

    /** The body of the loop over the lines. */
    method ParseLine(line: Text, ghost known: set<Text>) returns (ok: bool)
      requires Shaped() && Grown(known)
      modifies `clientMap, slotToClients
      ensures (old(Routed()) ==> Routed()) && Grown(known)
      ensures var p := Line(line, Reach(known), atoi);
        ok == p.ok && Written(old(slotToClients[..]), slotToClients[..], p.writes)
    {
      var items := Pieces(line, SPACE);
      if |items| < 9 || !Contains(items[2], MASTER) {
        return true;
      }
      var addr := Pieces(items[1], AT);
      if |addr| > 2 {
        return false;
      }
      ok := CreateClient(addr[0]);
      if ok {
        ok := ParseItems(items, addr[0]);
      }
    }

    /** The map holds the addresses it knew and others that could be reached. */
    ghost predicate Grown(known: set<Text>)
      reads this
    {
      known <= clientMap && forall a :: a in clientMap ==> a in known || up(a)
    }

    /** `parseNodesInfoAndInitClient` */
    method ParseNodesInfo(info: Text) returns (ok: bool)
      requires Shaped()
      modifies `clientMap, slotToClients
      ensures (old(Routed()) ==> Routed()) && Grown(old(clientMap))
      ensures var p := Lines(Pieces(info, NEWLINE), Reach(old(clientMap)), atoi);
        ok == p.ok && Written(old(slotToClients[..]), slotToClients[..], p.writes)
    {
      ghost var before, writes: seq<Write>, reach := slotToClients[..], [], Reach(clientMap);
      var lines := Pieces(info, NEWLINE);
      var k := 0;
      assert lines[0..] == lines;
      while k < |lines|
        invariant 0 <= k <= |lines| && (old(Routed()) ==> Routed())
        invariant Grown(old(clientMap)) && Written(before, slotToClients[..], writes)
        invariant Lines(lines, reach, atoi) == Then(Parsed(writes, true), Lines(lines[k..], reach, atoi))
      {
        assert lines[k..][1..] == lines[k + 1..];
        ghost var middle, p := slotToClients[..], Line(lines[k], reach, atoi);
        ok := ParseLine(lines[k], old(clientMap));
        WrittenTwice(before, middle, slotToClients[..], writes, p.writes);
        if !ok {
          return false;
        }
        ThenTwice(writes, p.writes, Lines(lines[k + 1..], reach, atoi));
        writes := writes + p.writes;
        k := k + 1;
      }
      assert writes + [] == writes;
      ok := true;
    }

    /** `checkSlotToClients` */
    method CheckSlotToClients() returns (ok: bool)
      requires Shaped()
      ensures ok <==> forall i :: 0 <= i < SLOTS_NUM ==> slotToClients[i].Some?
    {
      var i := 0;
      while i < SLOTS_NUM
        invariant 0 <= i <= SLOTS_NUM && forall j :: 0 <= j < i ==> slotToClients[j].Some?
      {
        if slotToClients[i] == None {
          return false;
        }
        i := i + 1;
      }
      ok := true;
    }

    /** `init`, where `info` is the answer to `cluster nodes`, if there is one. On a client without routes,
        success means that every slot has a client of the map, the one of the last master line for it. On any
        client, success means that of exactly the slots the text covers. */
    method Init(serverAddr: Text, info: Option<Text>) returns (ok: bool)
      requires Shaped()
      modifies `clientMap, slotToClients
      ensures ok && old(Routed()) ==> Routed()
      ensures ok ==> info.Some? && forall i :: 0 <= i < SLOTS_NUM ==> slotToClients[i].Some?
      ensures ok ==>
        var lines, reach := Pieces(info.value, 10), Reach(old(clientMap) + {serverAddr});
        forall i :: 0 <= i < SLOTS_NUM ==>
          (OwnedBy(lines, reach, atoi, i, slotToClients[i].value) <==> Covers(lines, reach, atoi, i))
          && (old(Empty()) ==> Covers(lines, reach, atoi, i))
      ensures info.Some? && (serverAddr in old(clientMap) || up(serverAddr)) ==>
        var lines, reach := Pieces(info.value, 10), Reach(old(clientMap) + {serverAddr});
        && Written(old(slotToClients[..]), slotToClients[..], Lines(lines, reach, atoi).writes)
        && (!Lines(lines, reach, atoi).ok ==> clientMap == {})
        && ok == Succeeds(old(slotToClients[..]), lines, reach, atoi)
    {
      ok := CreateClient(serverAddr);
      if !ok {
        return false;
      }
      if info == None {
        clientMap := {};
        return false;
      }
      ghost var known := clientMap;
      ok := ParseNodesInfo(info.value);
      if !ok {
        clientMap := {};
        return false;
      }
      ok := CheckSlotToClients();
      RoutesAre(old(slotToClients[..]), Pieces(info.value, NEWLINE), Reach(known));
    }

    /** After a successful parse: which slots have a client, and which have that of their last line. */
    lemma RoutesAre(before: seq<Option<Text>>, lines: seq<Text>, reach: Text -> bool)
      requires Shaped() && Lines(lines, reach, atoi).ok
      requires Written(before, slotToClients[..], Lines(lines, reach, atoi).writes)
      ensures Succeeds(before, lines, reach, atoi) <==> forall i :: 0 <= i < SLOTS_NUM ==> slotToClients[i].Some?
      ensures forall i :: 0 <= i < SLOTS_NUM && slotToClients[i].Some? ==>
        (OwnedBy(lines, reach, atoi, i, slotToClients[i].value) <==> Covers(lines, reach, atoi, i))
        && (before[i] == None ==> Covers(lines, reach, atoi, i))
    {
      assert forall i :: 0 <= i < SLOTS_NUM ==> slotToClients[i] == slotToClients[..][i];
      forall i | 0 <= i < SLOTS_NUM && slotToClients[i].Some?
        ensures (OwnedBy(lines, reach, atoi, i, slotToClients[i].value) <==> Covers(lines, reach, atoi, i))
          && (before[i] == None ==> Covers(lines, reach, atoi, i))
      {
        OwnedIff(lines, reach, atoi, i, slotToClients[i].value);
        CoversIff(lines, reach, atoi, i);
      }
    }

    /** `getClientByKey` */
    method GetClientByKey(key: seq<bv8>) returns (client: Option<Text>)
      requires Shaped()
      ensures client == ClientOf(key)
    {
      var slot := KeyHash.KeyHashSlot(key);
      client := slotToClients[slot];
    }

    /** The client of the slot of a key. */
    ghost function ClientOf(key: seq<bv8>): Option<Text>
      requires Shaped()
      reads slotToClients
    {
      slotToClients[KeyHash.KeySlot(key)]
    }

    /** `checkKeyInSameSlot`: true exactly when all keys have one slot, and then they share a client. */
    method CheckKeyInSameSlot(keys: seq<seq<bv8>>) returns (same: bool)
      requires Shaped()
      ensures same <==> forall j, k :: 0 <= j < k < |keys| ==> KeyHash.KeySlot(keys[j]) == KeyHash.KeySlot(keys[k])
      ensures same ==> forall j, k :: 0 <= j < k < |keys| ==> ClientOf(keys[j]) == ClientOf(keys[k])
    {
      if |keys| == 0 {
        return true;
      }
      var first := KeyHash.KeyHashSlot(keys[0]);
      var i := 0;
      while i < |keys|
        invariant 0 <= i <= |keys|
        invariant forall j :: 0 <= j < i ==> KeyHash.KeySlot(keys[j]) == first
      {
        var slot := KeyHash.KeyHashSlot(keys[i]);
        if slot != first {
          return false;
        }
        i := i + 1;
      }
      same := true;
    }

    lemma StillRouted(before: seq<Option<Text>>, writes: seq<Write>)
      requires Shaped() && Written(before, slotToClients[..], writes)
      requires forall i :: 0 <= i < SLOTS_NUM && before[i].Some? ==> before[i].value in clientMap
      requires forall k :: 0 <= k < |writes| ==> writes[k].addr in clientMap
      ensures Routed()
    {
      forall i | 0 <= i < SLOTS_NUM && slotToClients[i].Some? ensures slotToClients[i].value in clientMap {
        assert slotToClients[i] == slotToClients[..][i];
        OwnerIsWrite(writes, i);
      }
    }
  }

  lemma ThenTwice(a: seq<Write>, b: seq<Write>, p: Parsed)
    ensures Then(Parsed(a, true), Then(Parsed(b, true), p)) == Then(Parsed(a + b, true), p)
  {
    assert a + (b + p.writes) == a + b + p.writes;
  }

  lemma {:induction false} OwnerIsWrite(writes: seq<Write>, slot: int)
    ensures Owner(writes, slot).Some? ==> exists k :: 0 <= k < |writes| && writes[k].addr == Owner(writes, slot).value
  {
    if writes != [] && !Holds(writes[|writes| - 1].slots, slot) {
      OwnerIsWrite(writes[..|writes| - 1], slot);
    }
  }

  /** A failed `init` forgets its clients but not its routes: when it had assigned all slots, the next
      `init` succeeds although no line of its own text assigns any. */
  method StaleRoutes(client: ClusterClient, server: Text, info: Text) returns (first: bool, second: bool)
    requires client.Shaped() && client.up(server)
    requires var p := Lines(Pieces(info, NEWLINE), client.Reach(client.clientMap + {server}), client.atoi);
      !p.ok && forall i :: 0 <= i < SLOTS_NUM ==> Owner(p.writes, i).Some?
    modifies client, client.slotToClients
    ensures !first && second
    ensures var p := Lines(Pieces(info, NEWLINE), old(client.Reach(client.clientMap + {server})), client.atoi);
      forall i :: 0 <= i < SLOTS_NUM ==> client.slotToClients[i] == Owner(p.writes, i)
  {
    first := client.Init(server, Some(info));
    ghost var before := client.slotToClients[..];
    EmptyInfo(client.Reach(client.clientMap + {server}), client.atoi);
    second := client.Init(server, Some([]));
    assert Written(before, client.slotToClients[..], []);
  }

  lemma EmptyInfo(reach: Text -> bool, atoi: Text -> Option<int>)
    ensures Lines(Pieces([], NEWLINE), reach, atoi) == Parsed([], true)
  {
    var nothing: Text := [];
    assert Line(nothing, reach, atoi) == Parsed([], true);
    assert [nothing][1..] == [];
  }
}
