/** When `init` leaves a slot with the client of its last master line: on every text exactly when the slot
    had no route before, because an earlier `init` that failed has kept its routes. The texts that show it
    are written out. */
module ClusterRoutes {
  import opened Basics
  import opened DecimalText
  import opened Slots
  import opened Cluster

  // ---------------------------------------------------------------- texts

  /** Items with a separator between them. */
  function Join(items: seq<Text>, c: byte): Text {
    if items == [] then [] else if |items| == 1 then items[0] else items[0] + [c] + Join(items[1..], c)
  }

  lemma {:induction false} PiecesOfJoin(items: seq<Text>, c: byte)
    requires items != [] && forall k :: 0 <= k < |items| ==> c !in items[k]
    ensures Pieces(Join(items, c), c) == items
    decreases |items|
  {
    if |items| == 1 {
      PiecesAppend(items[0], c, []);
    } else {
      PiecesOfJoin(items[1..], c);
      PiecesAppend(items[0], c, Join(items[1..], c));
    }
  }

  lemma {:induction false} JoinAvoids(items: seq<Text>, c: byte, d: byte)
    requires d != c && forall k :: 0 <= k < |items| ==> d !in items[k]
    ensures d !in Join(items, c)
    decreases |items|
  {
    if |items| > 1 {
      JoinAvoids(items[1..], c, d);
    }
  }

  /** An address that a line can carry. */
  predicate Clean(addr: Text) {
    SPACE !in addr && AT !in addr && NEWLINE !in addr
  }

  predicate Plain(item: Text) {
    SPACE !in item && NEWLINE !in item
  }

  /** The eight fields before the slots: id, address, flags, and five more. */
  function Fields(addr: Text): seq<Text> {
    [[97], addr, MASTER, [MINUS], [48], [48], [49], [99]]
  }

  function MasterLine(addr: Text, slots: seq<Text>): Text {
    Join(Fields(addr) + slots, SPACE)
  }

  lemma MasterLineParses(addr: Text, slots: seq<Text>, reach: Text -> bool, atoi: Text -> Option<int>)
    requires Clean(addr) && reach(addr) && slots != [] && forall k :: 0 <= k < |slots| ==> Plain(slots[k])
    ensures Line(MasterLine(addr, slots), reach, atoi) == Items(slots, addr, atoi)
    ensures NEWLINE !in MasterLine(addr, slots)
  {
    var items := Fields(addr) + slots;
    forall k | 0 <= k < |items| ensures SPACE !in items[k] && NEWLINE !in items[k] {
      if k >= 8 {
        assert items[k] == slots[k - 8];
      }
    }
    PiecesOfJoin(items, SPACE);
    JoinAvoids(items, SPACE, NEWLINE);
    PiecesAppend(addr, AT, []);
    assert FoundAt(MASTER, MASTER, 0);
    assert items[8..] == slots;
  }

  /** The only thing asked of `SimpleAtoi`: it reads the printed slots. */
  ghost predicate ReadsSlots(atoi: Text -> Option<int>) {
    forall v :: 0 <= v < SLOTS_NUM ==> atoi(Render(v)) == Some(v)
  }

  function RangeItem(first: int, last: int): Text {
    Render(first) + [MINUS] + Render(last)
  }

  lemma RangeItemReads(first: int, last: int, atoi: Text -> Option<int>)
    requires 0 <= first <= last < SLOTS_NUM && ReadsSlots(atoi)
    ensures ItemRange(RangeItem(first, last), atoi) == Some(Range(first, last))
    ensures Plain(RangeItem(first, last)) && RangeItem(first, last)[0] != BRACKET
  {
    DigitsOnly(first);
    DigitsOnly(last);
    assert RangeItem(first, last)[|Render(first)|] == MINUS;
    DenotesOne(RangeItem(first, last), Range(first, last));
  }

  lemma DigitsOnly(n: nat)
    ensures forall k :: 0 <= k < |Render(n)| ==> IsDigit(Render(n)[k])
  {
    DigitsAreCanonical(n);
  }

  // ---------------------------------------------------------------- the exact condition

  /** The items of a line that covers every slot but one. */
  function OthersThan(slot: int): seq<Text>
    requires 0 <= slot < SLOTS_NUM
  {
    (if slot > 0 then [RangeItem(0, slot - 1)] else [])
    + (if slot < SLOTS_NUM - 1 then [RangeItem(slot + 1, SLOTS_NUM - 1)] else [])
  }

  lemma OneItem(item: Text, r: Range, addr: Text, atoi: Text -> Option<int>, rest: seq<Text>)
    requires item != [] && item[0] != BRACKET && ItemRange(item, atoi) == Some(r)
    ensures Items([item] + rest, addr, atoi) == Then(Parsed([Write(r, addr)], true), Items(rest, addr, atoi))
  {
    assert ([item] + rest)[1..] == rest;
  }

  lemma OneWrite(r: Range, addr: Text, i: int)
    ensures Owner([Write(r, addr)], i) == if Holds(r, i) then Some(addr) else None
  {
    assert [Write(r, addr)][..0] == [];
  }

  /** Such a line gives every slot but that one to its address. */
  lemma OthersAreOwned(slot: int, addr: Text, atoi: Text -> Option<int>, i: int)
    requires 0 <= slot < SLOTS_NUM && 0 <= i < SLOTS_NUM && ReadsSlots(atoi)
    ensures Items(OthersThan(slot), addr, atoi).ok
    ensures Owner(Items(OthersThan(slot), addr, atoi).writes, i) == if i == slot then None else Some(addr)
    ensures OthersThan(slot) != [] && forall k :: 0 <= k < |OthersThan(slot)| ==> Plain(OthersThan(slot)[k])
  {
    var low := if slot > 0 then [Write(Range(0, slot - 1), addr)] else [];
    var high := if slot < SLOTS_NUM - 1 then [Write(Range(slot + 1, SLOTS_NUM - 1), addr)] else [];
    var upper := if slot < SLOTS_NUM - 1 then [RangeItem(slot + 1, SLOTS_NUM - 1)] else [];
    if slot < SLOTS_NUM - 1 {
      RangeItemReads(slot + 1, SLOTS_NUM - 1, atoi);
      OneItem(upper[0], Range(slot + 1, SLOTS_NUM - 1), addr, atoi, []);
      OneWrite(high[0].slots, addr, i);
      assert upper == [upper[0]] + [] && high + [] == high;
    }
    assert Items(upper, addr, atoi) == Parsed(high, true);
    if slot > 0 {
      RangeItemReads(0, slot - 1, atoi);
      OneItem(RangeItem(0, slot - 1), Range(0, slot - 1), addr, atoi, upper);
      OneWrite(low[0].slots, addr, i);
    } else {
      assert OthersThan(slot) == upper && [] + high == high;
    }
    assert Items(OthersThan(slot), addr, atoi) == Parsed(low + high, true);
    OwnerAppend(low, high, i);
  }

  lemma OneLine(line: Text, reach: Text -> bool, atoi: Text -> Option<int>)
    requires NEWLINE !in line && Line(line, reach, atoi).ok
    ensures Pieces(line, NEWLINE) == [line] && Lines([line], reach, atoi) == Line(line, reach, atoi)
  {
    PiecesAppend(line, NEWLINE, []);
    var p := Line(line, reach, atoi);
    assert [line][1..] == [] && p.writes + [] == p.writes;
  }

  /** Every text whose `init` succeeds covers a slot exactly when the slot had no route before the call; then
      its client is the one of its last line. */
  lemma CoveredIff(before: seq<Option<Text>>, slot: int, reach: Text -> bool, atoi: Text -> Option<int>, addr: Text)
    requires |before| == SLOTS_NUM && 0 <= slot < SLOTS_NUM
    requires Clean(addr) && reach(addr) && ReadsSlots(atoi)
    ensures before[slot] == None <==>
      forall info: Text :: Succeeds(before, Pieces(info, NEWLINE), reach, atoi) ==>
        Covers(Pieces(info, NEWLINE), reach, atoi, slot)
  {
    if before[slot] == None {
      forall info: Text | Succeeds(before, Pieces(info, NEWLINE), reach, atoi)
        ensures Covers(Pieces(info, NEWLINE), reach, atoi, slot)
      {
        CoversIff(Pieces(info, NEWLINE), reach, atoi, slot);
      }
    } else {
      var info := UncoveringText(before, slot, reach, atoi, addr);
    }
  }

  /** A client with a route for a slot accepts a text that does not mention the slot. */
  lemma UncoveringText(before: seq<Option<Text>>, slot: int, reach: Text -> bool, atoi: Text -> Option<int>, addr: Text)
    returns (info: Text)
    requires |before| == SLOTS_NUM && 0 <= slot < SLOTS_NUM && before[slot].Some?
    requires Clean(addr) && reach(addr) && ReadsSlots(atoi)
    ensures Succeeds(before, Pieces(info, NEWLINE), reach, atoi)
    ensures !Covers(Pieces(info, NEWLINE), reach, atoi, slot)
  {
    info := MasterLine(addr, OthersThan(slot));
    OthersAreOwned(slot, addr, atoi, slot);
    MasterLineParses(addr, OthersThan(slot), reach, atoi);
    OneLine(info, reach, atoi);
    CoversIff([info], reach, atoi, slot);
    forall i | 0 <= i < SLOTS_NUM ensures Owner(Lines([info], reach, atoi).writes, i).Some? || before[i].Some? {
      OthersAreOwned(slot, addr, atoi, i);
    }
  }

  // ---------------------------------------------------------------- the failing run

  /** Reads digits. */
  function ReadDigits(t: Text): Option<int> {
    if t != [] && forall k :: 0 <= k < |t| ==> IsDigit(t[k]) then Some(Value(t)) else None
  }

  lemma DigitsAreRead()
    ensures ReadsSlots(ReadDigits)
  {
    forall v | 0 <= v < SLOTS_NUM ensures ReadDigits(Render(v)) == Some(v) {
      DigitsAreCanonical(v);
    }
  }

  /** All slots in one line, and a second line whose slot item is no number. */
  function BrokenText(server: Text): Text {
    Join([MasterLine(server, [RangeItem(0, SLOTS_NUM - 1)]), MasterLine(server, [[120]])], NEWLINE)
  }

  lemma FullLineParses(server: Text, reach: Text -> bool)
    requires Clean(server) && reach(server)
    ensures Line(MasterLine(server, [RangeItem(0, SLOTS_NUM - 1)]), reach, ReadDigits)
         == Parsed([Write(Range(0, SLOTS_NUM - 1), server)], true)
    ensures NEWLINE !in MasterLine(server, [RangeItem(0, SLOTS_NUM - 1)])
  {
    var good := [RangeItem(0, SLOTS_NUM - 1)];
    var all := [Write(Range(0, SLOTS_NUM - 1), server)];
    DigitsAreRead();
    RangeItemReads(0, SLOTS_NUM - 1, ReadDigits);
    OneItem(good[0], Range(0, SLOTS_NUM - 1), server, ReadDigits, []);
    assert good == [good[0]] + [] && all + [] == all;
    MasterLineParses(server, good, reach, ReadDigits);
  }

  lemma BadLineFails(server: Text, reach: Text -> bool)
    requires Clean(server) && reach(server)
    ensures Line(MasterLine(server, [[120]]), reach, ReadDigits) == Parsed([], false)
    ensures NEWLINE !in MasterLine(server, [[120]])
  {
    var bad := [[120]];
    MasterLineParses(server, bad, reach, ReadDigits);
    PiecesAppend(bad[0], MINUS, []);
    assert !IsDigit(bad[0][0]);
  }

  /** Parsing it fails after every slot has been given to the server. */
  lemma BrokenTextParses(server: Text, reach: Text -> bool)
    requires Clean(server) && reach(server)
    ensures Lines(Pieces(BrokenText(server), NEWLINE), reach, ReadDigits)
         == Parsed([Write(Range(0, SLOTS_NUM - 1), server)], false)
  {
    var lines := [MasterLine(server, [RangeItem(0, SLOTS_NUM - 1)]), MasterLine(server, [[120]])];
    FullLineParses(server, reach);
    BadLineFails(server, reach);
    PiecesOfJoin(lines, NEWLINE);
    assert lines[1..][0] == lines[1];
    assert Lines(lines[1..], reach, ReadDigits) == Parsed([], false);
  }

  /** A run in which `init` succeeds on a text without any line: the routes are those of an `init` that
      failed before. */
  method StaleRun(server: Text) returns (client: ClusterClient, first: bool, second: bool)
    requires Clean(server)
    ensures !first && second && client.Shaped()
    ensures forall i :: 0 <= i < SLOTS_NUM ==> client.slotToClients[i] == Some(server)
    ensures forall reach, i :: !Covers(Pieces([], NEWLINE), reach, ReadDigits, i)
  {
    client := new ClusterClient(ReadDigits, _ => true);
    BrokenTextParses(server, client.Reach({} + {server}));
    ghost var all := [Write(Range(0, SLOTS_NUM - 1), server)];
    forall i {:trigger Owner(all, i)} | 0 <= i < SLOTS_NUM ensures Owner(all, i) == Some(server) {
      OneWrite(Range(0, SLOTS_NUM - 1), server, i);
    }
    first, second := StaleRoutes(client, server, BrokenText(server));
    forall reach, i ensures !Covers(Pieces([], NEWLINE), reach, ReadDigits, i) {
      EmptyInfo(reach, ReadDigits);
      CoversIff(Pieces([], NEWLINE), reach, ReadDigits, i);
    }
  }
}
