/** `crc16`: the table-driven checksum equals a 16-bit shift register that the message enters one bit at
    a time, most significant bit first, with feedback polynomial 0x1021. */
module Crc16 {
  import opened ShiftRegister

  /** The source's table, eight entries to a row. */
  const TABLE: seq<seq<bv16>> := [
    [0x0000, 0x1021, 0x2042, 0x3063, 0x4084, 0x50a5, 0x60c6, 0x70e7],
    [0x8108, 0x9129, 0xa14a, 0xb16b, 0xc18c, 0xd1ad, 0xe1ce, 0xf1ef],
    [0x1231, 0x0210, 0x3273, 0x2252, 0x52b5, 0x4294, 0x72f7, 0x62d6],
    [0x9339, 0x8318, 0xb37b, 0xa35a, 0xd3bd, 0xc39c, 0xf3ff, 0xe3de],
    [0x2462, 0x3443, 0x0420, 0x1401, 0x64e6, 0x74c7, 0x44a4, 0x5485],
    [0xa56a, 0xb54b, 0x8528, 0x9509, 0xe5ee, 0xf5cf, 0xc5ac, 0xd58d],
    [0x3653, 0x2672, 0x1611, 0x0630, 0x76d7, 0x66f6, 0x5695, 0x46b4],
    [0xb75b, 0xa77a, 0x9719, 0x8738, 0xf7df, 0xe7fe, 0xd79d, 0xc7bc],
    [0x48c4, 0x58e5, 0x6886, 0x78a7, 0x0840, 0x1861, 0x2802, 0x3823],
    [0xc9cc, 0xd9ed, 0xe98e, 0xf9af, 0x8948, 0x9969, 0xa90a, 0xb92b],
    [0x5af5, 0x4ad4, 0x7ab7, 0x6a96, 0x1a71, 0x0a50, 0x3a33, 0x2a12],
    [0xdbfd, 0xcbdc, 0xfbbf, 0xeb9e, 0x9b79, 0x8b58, 0xbb3b, 0xab1a],
    [0x6ca6, 0x7c87, 0x4ce4, 0x5cc5, 0x2c22, 0x3c03, 0x0c60, 0x1c41],
    [0xedae, 0xfd8f, 0xcdec, 0xddcd, 0xad2a, 0xbd0b, 0x8d68, 0x9d49],
    [0x7e97, 0x6eb6, 0x5ed5, 0x4ef4, 0x3e13, 0x2e32, 0x1e51, 0x0e70],
    [0xff9f, 0xefbe, 0xdfdd, 0xcffc, 0xbf1b, 0xaf3a, 0x9f59, 0x8f78],
    [0x9188, 0x81a9, 0xb1ca, 0xa1eb, 0xd10c, 0xc12d, 0xf14e, 0xe16f],
    [0x1080, 0x00a1, 0x30c2, 0x20e3, 0x5004, 0x4025, 0x7046, 0x6067],
    [0x83b9, 0x9398, 0xa3fb, 0xb3da, 0xc33d, 0xd31c, 0xe37f, 0xf35e],
    [0x02b1, 0x1290, 0x22f3, 0x32d2, 0x4235, 0x5214, 0x6277, 0x7256],
    [0xb5ea, 0xa5cb, 0x95a8, 0x8589, 0xf56e, 0xe54f, 0xd52c, 0xc50d],
    [0x34e2, 0x24c3, 0x14a0, 0x0481, 0x7466, 0x6447, 0x5424, 0x4405],
    [0xa7db, 0xb7fa, 0x8799, 0x97b8, 0xe75f, 0xf77e, 0xc71d, 0xd73c],
    [0x26d3, 0x36f2, 0x0691, 0x16b0, 0x6657, 0x7676, 0x4615, 0x5634],
    [0xd94c, 0xc96d, 0xf90e, 0xe92f, 0x99c8, 0x89e9, 0xb98a, 0xa9ab],
    [0x5844, 0x4865, 0x7806, 0x6827, 0x18c0, 0x08e1, 0x3882, 0x28a3],
    [0xcb7d, 0xdb5c, 0xeb3f, 0xfb1e, 0x8bf9, 0x9bd8, 0xabbb, 0xbb9a],
    [0x4a75, 0x5a54, 0x6a37, 0x7a16, 0x0af1, 0x1ad0, 0x2ab3, 0x3a92],
    [0xfd2e, 0xed0f, 0xdd6c, 0xcd4d, 0xbdaa, 0xad8b, 0x9de8, 0x8dc9],
    [0x7c26, 0x6c07, 0x5c64, 0x4c45, 0x3ca2, 0x2c83, 0x1ce0, 0x0cc1],
    [0xef1f, 0xff3e, 0xcf5d, 0xdf7c, 0xaf9b, 0xbfba, 0x8fd9, 0x9ff8],
    [0x6e17, 0x7e36, 0x4e55, 0x5e74, 0x2e93, 0x3eb2, 0x0ed1, 0x1ef0]
  ]

  // ---------------------------------------------------------------- the shift register

  /** The bit about to leave the register. */
  predicate Leads(r: bv16) {
    r & 0x8000 != 0
  }

  function Next(r: bv16): bv16 {
    r << 1
  }

  function Sum(x: bv16, y: bv16): bv16 {
    x ^ y
  }

  /** One message bit enters the register. */
  function Feed(r: bv16, bit: bool): bv16 {
    Step(Leads, Next, Sum, 0x1021, r, bit)
  }

  predicate Bit(b: bv8, i: nat)
    requires i < 8
  {
    (b >> i) & 1 == 1
  }

  /** The bits of a byte, most significant first. */
  function BitsOf(b: bv8): seq<bool> {
    [Bit(b, 7), Bit(b, 6), Bit(b, 5), Bit(b, 4), Bit(b, 3), Bit(b, 2), Bit(b, 1), Bit(b, 0)]
  }

  /** The checksum by definition: the register after every bit of the message. */
  function Crc(r: bv16, msg: seq<bv8>): bv16 {
    Serial(Feed, r, MessageBits(BitsOf, msg))
  }

  // ---------------------------------------------------------------- the table

  /** One, two and eight zero bits enter the register. */
  function Shift(r: bv16): bv16 {
    if r & 0x8000 != 0 then (r << 1) ^ 0x1021 else r << 1
  }

  function Shift2(r: bv16): bv16 {
    var s := Shift(r);
    if s & 0x8000 != 0 then (s << 1) ^ 0x1021 else s << 1
  }

  function Shift8(r: bv16): bv16 {
    Shift2(Shift2(Shift2(Shift2(r))))
  }

  /** Where a message byte meets the register. */
  function Load(b: bv8): bv16 {
    b as bv16 << 8
  }

  const F: bv8 -> bv16 := i => Shift8(Load(i))

  lemma Rows0To3()
    ensures |TABLE| == 32 && RowIs(TABLE[0], F, 0) && RowIs(TABLE[1], F, 8)
    ensures RowIs(TABLE[2], F, 16) && RowIs(TABLE[3], F, 24)
  {
  }

  lemma Rows4To7()
    ensures |TABLE| == 32 && RowIs(TABLE[4], F, 32) && RowIs(TABLE[5], F, 40)
    ensures RowIs(TABLE[6], F, 48) && RowIs(TABLE[7], F, 56)
  {
  }

  lemma Rows8To11()
    ensures |TABLE| == 32 && RowIs(TABLE[8], F, 64) && RowIs(TABLE[9], F, 72)
    ensures RowIs(TABLE[10], F, 80) && RowIs(TABLE[11], F, 88)
  {
  }

  lemma Rows12To15()
    ensures |TABLE| == 32 && RowIs(TABLE[12], F, 96) && RowIs(TABLE[13], F, 104)
    ensures RowIs(TABLE[14], F, 112) && RowIs(TABLE[15], F, 120)
  {
  }

  lemma Rows16To19()
    ensures |TABLE| == 32 && RowIs(TABLE[16], F, 128) && RowIs(TABLE[17], F, 136)
    ensures RowIs(TABLE[18], F, 144) && RowIs(TABLE[19], F, 152)
  {
  }

  lemma Rows20To23()
    ensures |TABLE| == 32 && RowIs(TABLE[20], F, 160) && RowIs(TABLE[21], F, 168)
    ensures RowIs(TABLE[22], F, 176) && RowIs(TABLE[23], F, 184)
  {
  }

  lemma Rows24To27()
    ensures |TABLE| == 32 && RowIs(TABLE[24], F, 192) && RowIs(TABLE[25], F, 200)
    ensures RowIs(TABLE[26], F, 208) && RowIs(TABLE[27], F, 216)
  {
  }

  lemma Rows28To31()
    ensures |TABLE| == 32 && RowIs(TABLE[28], F, 224) && RowIs(TABLE[29], F, 232)
    ensures RowIs(TABLE[30], F, 240) && RowIs(TABLE[31], F, 248)
  {
  }

  /** All 256 entries are right. */
  lemma EntryIsShifted(i: bv8)
    ensures (i >> 3) as int < |TABLE| && (i & 7) as int < |TABLE[(i >> 3) as int]|
    ensures TABLE[(i >> 3) as int][(i & 7) as int] == F(i)
  {
    Rows0To3();
    Rows4To7();
    Rows8To11();
    Rows12To15();
    Rows16To19();
    Rows20To23();
    Rows24To27();
    Rows28To31();
    AllRows(TABLE, F, i);
  }

  function Entry(i: bv8): bv16 {
    EntryIsShifted(i);
    TABLE[(i >> 3) as int][(i & 7) as int]
  }

  // ---------------------------------------------------------------- eight bits at once

  lemma NextSum(x: bv16, d: bv16)
    ensures Next(Sum(x, d)) == Sum(Next(x), Next(d))
  {
  }

  lemma LeadsSum(x: bv16, d: bv16)
    ensures Leads(Sum(x, d)) == (Leads(x) != Leads(d))
  {
  }

  lemma SumSwap(x: bv16, d: bv16)
    ensures Sum(Sum(x, d), 0x1021) == Sum(Sum(x, 0x1021), d)
  {
  }

  lemma RegisterIsLinear()
    ensures Linear(Feed, Leads, Sum, Next)
  {
    forall x: bv16, d: bv16 {
      NextSum(x, d);
    }
    forall x: bv16, d: bv16 {
      LeadsSum(x, d);
    }
    forall x: bv16, d: bv16 {
      SumSwap(x, d);
    }
    StepIsLinear(Feed, Leads, Next, Sum, 0x1021);
  }

  lemma Shift2IsShifts(x: bv16)
    ensures Shift2(x) == Shift(Shift(x))
  {
  }

  lemma ShiftIsFeed(x: bv16)
    ensures Shift(x) == Feed(x, false)
  {
  }

  lemma Shift2IsSerial(x: bv16)
    ensures Shift2(x) == Serial(Feed, x, Zeros(2))
  {
    Shift2IsShifts(x);
    TwoZeros(Feed, x);
    ShiftIsFeed(x);
    ShiftIsFeed(Shift(x));
  }

  lemma Shift8IsSerial(x: bv16)
    ensures Shift8(x) == Serial(Feed, x, Zeros(8))
  {
    var x2 := Shift2(x);
    var x4 := Shift2(x2);
    var x6 := Shift2(x4);
    Shift2IsSerial(x);
    Shift2IsSerial(x2);
    Shift2IsSerial(x4);
    Shift2IsSerial(x6);
    EightZeros(Feed, x, x2, x4, x6);
  }

  /** All 256 entries are right. */
  lemma EntryIsSerial(i: bv8)
    ensures Entry(i) == Serial(Feed, Load(i), Zeros(8))
  {
    EntryIsShifted(i);
    Shift8IsSerial(Load(i));
  }

  lemma LoadBits(b: bv8)
    ensures var d := Load(b);
      && Leads(d) == Bit(b, 7) && Leads(d << 1) == Bit(b, 6)
      && Leads(d << 2) == Bit(b, 5) && Leads(d << 3) == Bit(b, 4)
      && Leads(d << 4) == Bit(b, 3) && Leads(d << 5) == Bit(b, 2)
      && Leads(d << 6) == Bit(b, 1) && Leads(d << 7) == Bit(b, 0)
      && d << 8 == 0
  {
  }

  lemma NextPowers(d: bv16)
    ensures Next(d) == d << 1 && Next(Next(d)) == d << 2 && Next(Next(Next(d))) == d << 3
      && Next(Next(Next(Next(d)))) == d << 4
      && Next(Next(Next(Next(Next(d))))) == d << 5
      && Next(Next(Next(Next(Next(Next(d)))))) == d << 6
      && Next(Next(Next(Next(Next(Next(Next(d))))))) == d << 7
      && Next(Next(Next(Next(Next(Next(Next(Next(d)))))))) == d << 8
  {
  }

  /** A message byte, loaded into the register, leads with its own bits and leaves nothing. */
  lemma LoadLeads(b: bv8)
    ensures Leading(Leads, Next, Load(b), 8) == BitsOf(b)
    ensures After(Next, Load(b), 8) == 0
  {
    EightLeading(Leads, Next, Load(b));
    NextPowers(Load(b));
    LoadBits(b);
  }

  lemma RestBits(r: bv16)
    ensures var d := r & 0x00ff;
      && !Leads(d) && !Leads(d << 1) && !Leads(d << 2) && !Leads(d << 3)
      && !Leads(d << 4) && !Leads(d << 5) && !Leads(d << 6) && !Leads(d << 7)
      && d << 8 == r << 8
  {
  }

  /** The rest of the register leads with zeros. */
  lemma RestLeads(r: bv16)
    ensures Leading(Leads, Next, r & 0x00ff, 8) == Zeros(8)
    ensures After(Next, r & 0x00ff, 8) == r << 8
  {
    EightLeading(Leads, Next, r & 0x00ff);
    NextPowers(r & 0x00ff);
    RestBits(r);
  }

  lemma HighByte(r: bv16)
    ensures ((r >> 8) as bv8) as bv16 == r >> 8
  {
  }

  lemma LoadSum(x: bv8, y: bv8)
    ensures Load(x ^ y) == Load(x) ^ Load(y)
  {
  }

  lemma SplitRegister(r: bv16, high: bv16, load: bv16)
    requires high == r >> 8
    ensures r ^ load == ((high << 8) ^ load) ^ (r & 0x00ff)
  {
  }

  /** The byte meets the high half of the register. */
  lemma Regroup(r: bv16, b: bv8)
    ensures Sum(r, Load(b)) == Sum(Load((r >> 8) as bv8 ^ b), r & 0x00ff)
  {
    var high := (r >> 8) as bv8;
    HighByte(r);
    LoadSum(high, b);
    SplitRegister(r, high as bv16, Load(b));
  }

  lemma SumLaws(x: bv16, y: bv16)
    ensures Sum(x, 0) == x && Sum(x, y) == Sum(y, x)
  {
  }

  lemma StepFromParts(r: bv16, load: bv16, hi: bv16, lo: bv16, rest: bv16, entry: bv16, bits: seq<bool>)
    requires Sum(r, load) == Sum(hi, lo)
    requires Leading(Leads, Next, load, 8) == bits && After(Next, load, 8) == 0
    requires Leading(Leads, Next, lo, 8) == Zeros(8) && After(Next, lo, 8) == rest
    requires entry == Serial(Feed, hi, Zeros(8))
    ensures Sum(entry, rest) == Serial(Feed, r, bits)
  {
    RegisterIsLinear();
    ByteStep(Feed, Leads, Sum, Next, r, load, hi, lo, 0, rest, bits);
    SumLaws(Serial(Feed, r, bits), 0);
  }

  /** One byte by table is the same as its eight bits. */
  lemma StepIsSerial(r: bv16, b: bv8)
    ensures Sum(Entry((r >> 8) as bv8 ^ b), r << 8) == Serial(Feed, r, BitsOf(b))
  {
    Regroup(r, b);
    LoadLeads(b);
    RestLeads(r);
    EntryIsSerial((r >> 8) as bv8 ^ b);
    StepFromParts(r, Load(b), Load((r >> 8) as bv8 ^ b), r & 0x00ff, r << 8, Entry((r >> 8) as bv8 ^ b), BitsOf(b));
  }

  /** The loop body of the checksum. */
  method Update(r: bv16, b: bv8) returns (r': bv16)
    ensures r' == Serial(Feed, r, BitsOf(b))
  {
    StepIsSerial(r, b);
    SumLaws(Entry((r >> 8) as bv8 ^ b), r << 8);
    r' := (r << 8) ^ Entry((r >> 8) as bv8 ^ b);
  }

  /** `crc16`. */
  method Checksum(buf: seq<bv8>) returns (crc: bv16)
    ensures crc == Crc(0, buf)
  {
    crc := 0;
    var counter := 0;
    while counter < |buf|
      invariant 0 <= counter <= |buf|
      invariant crc == Crc(0, buf[..counter])
    {
      SerialOneMore(Feed, BitsOf, 0, buf[..counter], buf[counter]);
      assert buf[..counter] + [buf[counter]] == buf[..counter + 1];
      crc := Update(crc, buf[counter]);
      counter := counter + 1;
    }
    assert buf[..counter] == buf;
  }

  // ---------------------------------------------------------------- an example

  /** The table entry for `i` is this. */
  lemma Entries()
    ensures Shift8(Load(0x31)) == 0x2672
    ensures Shift8(Load(0x14)) == 0x52b5
    ensures Shift8(Load(0x13)) == 0x2252
    ensures Shift8(Load(0xa3)) == 0x8589
    ensures Shift8(Load(0xe2)) == 0xdd6c
    ensures Shift8(Load(0x62)) == 0x4ce4
    ensures Shift8(Load(0x17)) == 0x62d6
    ensures Shift8(Load(0xbe)) == 0x4615
    ensures Shift8(Load(0xa9)) == 0x24c3
  {
  }

  lemma EntryIs(i: bv8)
    ensures Entry(i) == Shift8(Load(i))
  {
    EntryIsShifted(i);
  }

  /** One byte enters the register. */
  lemma Enters(r: bv16, b: bv8, i: bv8, r': bv16)
    requires i == (r >> 8) as bv8 ^ b && r' == Sum(Shift8(Load(i)), r << 8)
    ensures Serial(Feed, r, BitsOf(b)) == r'
  {
    StepIsSerial(r, b);
    EntryIs(i);
  }

  /** One byte of a message is read. */
  lemma Eats(r: bv16, msg: seq<bv8>, k: nat, i: bv8, r': bv16)
    requires k < |msg| && i == (r >> 8) as bv8 ^ msg[k] && r' == Sum(Shift8(Load(i)), r << 8)
    ensures Crc(r, msg[k..]) == Crc(r', msg[k + 1..])
  {
    Enters(r, msg[k], i, r');
    SerialMessage(Feed, BitsOf, r, [msg[k]], msg[k + 1..]);
    assert msg[k..] == [msg[k]] + msg[k + 1..];
    OneByte(BitsOf, msg[k]);
  }

  lemma FirstThree(digits: seq<bv8>)
    requires digits == [0x31, 0x32, 0x33, 0x34, 0x35, 0x36, 0x37, 0x38, 0x39]
    ensures Crc(0x0000, digits[0..]) == Crc(0x9752, digits[3..])
  {
    Entries();
    Eats(0x0000, digits, 0, 0x31, 0x2672);
    Eats(0x2672, digits, 1, 0x14, 0x20b5);
    Eats(0x20b5, digits, 2, 0x13, 0x9752);
  }

  lemma NextThree(digits: seq<bv8>)
    requires digits == [0x31, 0x32, 0x33, 0x34, 0x35, 0x36, 0x37, 0x38, 0x39]
    ensures Crc(0x9752, digits[3..]) == Crc(0x20e4, digits[6..])
  {
    Entries();
    Eats(0x9752, digits, 3, 0xa3, 0xd789);
    Eats(0xd789, digits, 4, 0xe2, 0x546c);
    Eats(0x546c, digits, 5, 0x62, 0x20e4);
  }

  lemma LastThree(digits: seq<bv8>)
    requires digits == [0x31, 0x32, 0x33, 0x34, 0x35, 0x36, 0x37, 0x38, 0x39]
    ensures Crc(0x20e4, digits[6..]) == Crc(0x31c3, digits[9..])
  {
    Entries();
    Eats(0x20e4, digits, 6, 0x17, 0x86d6);
    Eats(0x86d6, digits, 7, 0xbe, 0x9015);
    Eats(0x9015, digits, 8, 0xa9, 0x31c3);
  }

  /** The checksum of the digits from 1 to 9, published with the polynomial. */
  lemma CheckValue(digits: seq<bv8>)
    requires digits == [0x31, 0x32, 0x33, 0x34, 0x35, 0x36, 0x37, 0x38, 0x39]
    ensures Crc(0, digits) == 0x31c3
  {
    FirstThree(digits);
    NextThree(digits);
    LastThree(digits);
    assert digits[0..] == digits && digits[9..] == [];
  }
}
