/** `crc64`: the table-driven checksum equals a 64-bit shift register that the message enters one bit at
    a time, least significant bit first, with the reflected feedback polynomial 0x95ac9329ac4bc9b5. */
module Crc64 {
  import opened ShiftRegister

  /** The source's table, eight entries to a row. */
  const TABLE: seq<seq<bv64>> := [
    [0x0000000000000000, 0x7ad870c830358979, 0xf5b0e190606b12f2, 0x8f689158505e9b8b,
     0xc038e5739841b68f, 0xbae095bba8743ff6, 0x358804e3f82aa47d, 0x4f50742bc81f2d04],
    [0xab28ecb46814fe75, 0xd1f09c7c5821770c, 0x5e980d24087fec87, 0x24407dec384a65fe,
     0x6b1009c7f05548fa, 0x11c8790fc060c183, 0x9ea0e857903e5a08, 0xe478989fa00bd371],
    [0x7d08ff3b88be6f81, 0x07d08ff3b88be6f8, 0x88b81eabe8d57d73, 0xf2606e63d8e0f40a,
     0xbd301a4810ffd90e, 0xc7e86a8020ca5077, 0x4880fbd87094cbfc, 0x32588b1040a14285],
    [0xd620138fe0aa91f4, 0xacf86347d09f188d, 0x2390f21f80c18306, 0x594882d7b0f40a7f,
     0x1618f6fc78eb277b, 0x6cc0863448deae02, 0xe3a8176c18803589, 0x997067a428b5bcf0],
    [0xfa11fe77117cdf02, 0x80c98ebf2149567b, 0x0fa11fe77117cdf0, 0x75796f2f41224489,
     0x3a291b04893d698d, 0x40f16bccb908e0f4, 0xcf99fa94e9567b7f, 0xb5418a5cd963f206],
    [0x513912c379682177, 0x2be1620b495da80e, 0xa489f35319033385, 0xde51839b2936bafc,
     0x9101f7b0e12997f8, 0xebd98778d11c1e81, 0x64b116208142850a, 0x1e6966e8b1770c73],
    [0x8719014c99c2b083, 0xfdc17184a9f739fa, 0x72a9e0dcf9a9a271, 0x08719014c99c2b08,
     0x4721e43f0183060c, 0x3df994f731b68f75, 0xb29105af61e814fe, 0xc849756751dd9d87],
    [0x2c31edf8f1d64ef6, 0x56e99d30c1e3c78f, 0xd9810c6891bd5c04, 0xa3597ca0a188d57d,
     0xec09088b6997f879, 0x96d1784359a27100, 0x19b9e91b09fcea8b, 0x636199d339c963f2],
    [0xdf7adabd7a6e2d6f, 0xa5a2aa754a5ba416, 0x2aca3b2d1a053f9d, 0x50124be52a30b6e4,
     0x1f423fcee22f9be0, 0x659a4f06d21a1299, 0xeaf2de5e82448912, 0x902aae96b271006b],
    [0x74523609127ad31a, 0x0e8a46c1224f5a63, 0x81e2d7997211c1e8, 0xfb3aa75142244891,
     0xb46ad37a8a3b6595, 0xceb2a3b2ba0eecec, 0x41da32eaea507767, 0x3b024222da65fe1e],
    [0xa2722586f2d042ee, 0xd8aa554ec2e5cb97, 0x57c2c41692bb501c, 0x2d1ab4dea28ed965,
     0x624ac0f56a91f461, 0x1892b03d5aa47d18, 0x97fa21650afae693, 0xed2251ad3acf6fea],
    [0x095ac9329ac4bc9b, 0x7382b9faaaf135e2, 0xfcea28a2faafae69, 0x8632586aca9a2710,
     0xc9622c4102850a14, 0xb3ba5c8932b0836d, 0x3cd2cdd162ee18e6, 0x460abd1952db919f],
    [0x256b24ca6b12f26d, 0x5fb354025b277b14, 0xd0dbc55a0b79e09f, 0xaa03b5923b4c69e6,
     0xe553c1b9f35344e2, 0x9f8bb171c366cd9b, 0x10e3202993385610, 0x6a3b50e1a30ddf69],
    [0x8e43c87e03060c18, 0xf49bb8b633338561, 0x7bf329ee636d1eea, 0x012b592653589793,
     0x4e7b2d0d9b47ba97, 0x34a35dc5ab7233ee, 0xbbcbcc9dfb2ca865, 0xc113bc55cb19211c],
    [0x5863dbf1e3ac9dec, 0x22bbab39d3991495, 0xadd33a6183c78f1e, 0xd70b4aa9b3f20667,
     0x985b3e827bed2b63, 0xe2834e4a4bd8a21a, 0x6debdf121b863991, 0x1733afda2bb3b0e8],
    [0xf34b37458bb86399, 0x8993478dbb8deae0, 0x06fbd6d5ebd3716b, 0x7c23a61ddbe6f812,
     0x3373d23613f9d516, 0x49aba2fe23cc5c6f, 0xc6c333a67392c7e4, 0xbc1b436e43a74e9d],
    [0x95ac9329ac4bc9b5, 0xef74e3e19c7e40cc, 0x601c72b9cc20db47, 0x1ac40271fc15523e,
     0x5594765a340a7f3a, 0x2f4c0692043ff643, 0xa02497ca54616dc8, 0xdafce7026454e4b1],
    [0x3e847f9dc45f37c0, 0x445c0f55f46abeb9, 0xcb349e0da4342532, 0xb1eceec59401ac4b,
     0xfebc9aee5c1e814f, 0x8464ea266c2b0836, 0x0b0c7b7e3c7593bd, 0x71d40bb60c401ac4],
    [0xe8a46c1224f5a634, 0x927c1cda14c02f4d, 0x1d148d82449eb4c6, 0x67ccfd4a74ab3dbf,
     0x289c8961bcb410bb, 0x5244f9a98c8199c2, 0xdd2c68f1dcdf0249, 0xa7f41839ecea8b30],
    [0x438c80a64ce15841, 0x3954f06e7cd4d138, 0xb63c61362c8a4ab3, 0xcce411fe1cbfc3ca,
     0x83b465d5d4a0eece, 0xf96c151de49567b7, 0x76048445b4cbfc3c, 0x0cdcf48d84fe7545],
    [0x6fbd6d5ebd3716b7, 0x15651d968d029fce, 0x9a0d8ccedd5c0445, 0xe0d5fc06ed698d3c,
     0xaf85882d2576a038, 0xd55df8e515432941, 0x5a3569bd451db2ca, 0x20ed197575283bb3],
    [0xc49581ead523e8c2, 0xbe4df122e51661bb, 0x3125607ab548fa30, 0x4bfd10b2857d7349,
     0x04ad64994d625e4d, 0x7e7514517d57d734, 0xf11d85092d094cbf, 0x8bc5f5c11d3cc5c6],
    [0x12b5926535897936, 0x686de2ad05bcf04f, 0xe70573f555e26bc4, 0x9ddd033d65d7e2bd,
     0xd28d7716adc8cfb9, 0xa85507de9dfd46c0, 0x273d9686cda3dd4b, 0x5de5e64efd965432],
    [0xb99d7ed15d9d8743, 0xc3450e196da80e3a, 0x4c2d9f413df695b1, 0x36f5ef890dc31cc8,
     0x79a59ba2c5dc31cc, 0x037deb6af5e9b8b5, 0x8c157a32a5b7233e, 0xf6cd0afa9582aa47],
    [0x4ad64994d625e4da, 0x300e395ce6106da3, 0xbf66a804b64ef628, 0xc5bed8cc867b7f51,
     0x8aeeace74e645255, 0xf036dc2f7e51db2c, 0x7f5e4d772e0f40a7, 0x05863dbf1e3ac9de],
    [0xe1fea520be311aaf, 0x9b26d5e88e0493d6, 0x144e44b0de5a085d, 0x6e963478ee6f8124,
     0x21c640532670ac20, 0x5b1e309b16452559, 0xd476a1c3461bbed2, 0xaeaed10b762e37ab],
    [0x37deb6af5e9b8b5b, 0x4d06c6676eae0222, 0xc26e573f3ef099a9, 0xb8b627f70ec510d0,
     0xf7e653dcc6da3dd4, 0x8d3e2314f6efb4ad, 0x0256b24ca6b12f26, 0x788ec2849684a65f],
    [0x9cf65a1b368f752e, 0xe62e2ad306bafc57, 0x6946bb8b56e467dc, 0x139ecb4366d1eea5,
     0x5ccebf68aecec3a1, 0x2616cfa09efb4ad8, 0xa97e5ef8cea5d153, 0xd3a62e30fe90582a],
    [0xb0c7b7e3c7593bd8, 0xca1fc72bf76cb2a1, 0x45775673a732292a, 0x3faf26bb9707a053,
     0x70ff52905f188d57, 0x0a2722586f2d042e, 0x854fb3003f739fa5, 0xff97c3c80f4616dc],
    [0x1bef5b57af4dc5ad, 0x61372b9f9f784cd4, 0xee5fbac7cf26d75f, 0x9487ca0fff135e26,
     0xdbd7be24370c7322, 0xa10fceec0739fa5b, 0x2e675fb4576761d0, 0x54bf2f7c6752e8a9],
    [0xcdcf48d84fe75459, 0xb71738107fd2dd20, 0x387fa9482f8c46ab, 0x42a7d9801fb9cfd2,
     0x0df7adabd7a6e2d6, 0x772fdd63e7936baf, 0xf8474c3bb7cdf024, 0x829f3cf387f8795d],
    [0x66e7a46c27f3aa2c, 0x1c3fd4a417c62355, 0x935745fc4798b8de, 0xe98f353477ad31a7,
     0xa6df411fbfb21ca3, 0xdc0731d78f8795da, 0x536fa08fdfd90e51, 0x29b7d047efec8728]
  ]

  // ---------------------------------------------------------------- the shift register

  /** The bit about to leave the register. */
  predicate Leads(r: bv64) {
    r & 1 != 0
  }

  function Next(r: bv64): bv64 {
    r >> 1
  }

  function Sum(x: bv64, y: bv64): bv64 {
    x ^ y
  }

  /** One message bit enters the register. */
  function Feed(r: bv64, bit: bool): bv64 {
    Step(Leads, Next, Sum, 0x95ac9329ac4bc9b5, r, bit)
  }

  predicate Bit(b: bv8, i: nat)
    requires i < 8
  {
    (b >> i) & 1 == 1
  }

  /** The bits of a byte, least significant first. */
  function BitsOf(b: bv8): seq<bool> {
    [Bit(b, 0), Bit(b, 1), Bit(b, 2), Bit(b, 3), Bit(b, 4), Bit(b, 5), Bit(b, 6), Bit(b, 7)]
  }

  /** The checksum by definition: the register after every bit of the message. */
  function Crc(r: bv64, msg: seq<bv8>): bv64 {
    Serial(Feed, r, MessageBits(BitsOf, msg))
  }

  /** The checksum composes over concatenation. */
  lemma CrcConcat(r: bv64, s: seq<bv8>, t: seq<bv8>)
    ensures Crc(r, s + t) == Crc(Crc(r, s), t)
  {
    SerialMessage(Feed, BitsOf, r, s, t);
  }

  // ---------------------------------------------------------------- the table

  /** One, two and eight zero bits enter the register. */
  function Shift(r: bv64): bv64 {
    if r & 1 != 0 then (r >> 1) ^ 0x95ac9329ac4bc9b5 else r >> 1
  }

  function Shift2(r: bv64): bv64 {
    var s := Shift(r);
    if s & 1 != 0 then (s >> 1) ^ 0x95ac9329ac4bc9b5 else s >> 1
  }

  function Shift8(r: bv64): bv64 {
    Shift2(Shift2(Shift2(Shift2(r))))
  }

  /** Where a message byte meets the register. */
  function Load(b: bv8): bv64 {
    b as bv64
  }

  const F: bv8 -> bv64 := i => Shift8(Load(i))

  lemma Rows0To1()
    ensures |TABLE| == 32
    ensures RowIs(TABLE[0], F, 0) && RowIs(TABLE[1], F, 8)
  {
  }

  lemma Rows2To3()
    ensures |TABLE| == 32
    ensures RowIs(TABLE[2], F, 16) && RowIs(TABLE[3], F, 24)
  {
  }

  lemma Rows4To5()
    ensures |TABLE| == 32
    ensures RowIs(TABLE[4], F, 32) && RowIs(TABLE[5], F, 40)
  {
  }

  lemma Rows6To7()
    ensures |TABLE| == 32
    ensures RowIs(TABLE[6], F, 48) && RowIs(TABLE[7], F, 56)
  {
  }

  lemma Rows8To9()
    ensures |TABLE| == 32
    ensures RowIs(TABLE[8], F, 64) && RowIs(TABLE[9], F, 72)
  {
  }

  lemma Rows10To11()
    ensures |TABLE| == 32
    ensures RowIs(TABLE[10], F, 80) && RowIs(TABLE[11], F, 88)
  {
  }

  lemma Rows12To13()
    ensures |TABLE| == 32
    ensures RowIs(TABLE[12], F, 96) && RowIs(TABLE[13], F, 104)
  {
  }

  lemma Rows14To15()
    ensures |TABLE| == 32
    ensures RowIs(TABLE[14], F, 112) && RowIs(TABLE[15], F, 120)
  {
  }

  lemma Rows16To17()
    ensures |TABLE| == 32
    ensures RowIs(TABLE[16], F, 128) && RowIs(TABLE[17], F, 136)
  {
  }

  lemma Rows18To19()
    ensures |TABLE| == 32
    ensures RowIs(TABLE[18], F, 144) && RowIs(TABLE[19], F, 152)
  {
  }

  lemma Rows20To21()
    ensures |TABLE| == 32
    ensures RowIs(TABLE[20], F, 160) && RowIs(TABLE[21], F, 168)
  {
  }

  lemma Rows22To23()
    ensures |TABLE| == 32
    ensures RowIs(TABLE[22], F, 176) && RowIs(TABLE[23], F, 184)
  {
  }

  lemma Rows24To25()
    ensures |TABLE| == 32
    ensures RowIs(TABLE[24], F, 192) && RowIs(TABLE[25], F, 200)
  {
  }

  lemma Rows26To27()
    ensures |TABLE| == 32
    ensures RowIs(TABLE[26], F, 208) && RowIs(TABLE[27], F, 216)
  {
  }

  lemma Rows28To29()
    ensures |TABLE| == 32
    ensures RowIs(TABLE[28], F, 224) && RowIs(TABLE[29], F, 232)
  {
  }

  lemma Rows30To31()
    ensures |TABLE| == 32
    ensures RowIs(TABLE[30], F, 240) && RowIs(TABLE[31], F, 248)
  {
  }

  /** All 256 entries are right. */
  lemma EntryIsShifted(i: bv8)
    ensures (i >> 3) as int < |TABLE| && (i & 7) as int < |TABLE[(i >> 3) as int]|
    ensures TABLE[(i >> 3) as int][(i & 7) as int] == F(i)
  {
    Rows0To1(); Rows2To3(); Rows4To5(); Rows6To7();
    Rows8To9(); Rows10To11(); Rows12To13(); Rows14To15();
    Rows16To17(); Rows18To19(); Rows20To21(); Rows22To23();
    Rows24To25(); Rows26To27(); Rows28To29(); Rows30To31();
    AllRows(TABLE, F, i);
  }

  function Entry(i: bv8): bv64 {
    EntryIsShifted(i);
    TABLE[(i >> 3) as int][(i & 7) as int]
  }

  // ---------------------------------------------------------------- eight bits at once

  lemma NextSum(x: bv64, d: bv64)
    ensures Next(Sum(x, d)) == Sum(Next(x), Next(d))
  {
  }

  lemma LeadsSum(x: bv64, d: bv64)
    ensures Leads(Sum(x, d)) == (Leads(x) != Leads(d))
  {
  }

  lemma SumSwap(x: bv64, d: bv64)
    ensures Sum(Sum(x, d), 0x95ac9329ac4bc9b5) == Sum(Sum(x, 0x95ac9329ac4bc9b5), d)
  {
  }

  lemma RegisterIsLinear()
    ensures Linear(Feed, Leads, Sum, Next)
  {
    forall x: bv64, d: bv64 {
      NextSum(x, d);
    }
    forall x: bv64, d: bv64 {
      LeadsSum(x, d);
    }
    forall x: bv64, d: bv64 {
      SumSwap(x, d);
    }
    StepIsLinear(Feed, Leads, Next, Sum, 0x95ac9329ac4bc9b5);
  }

  lemma Shift2IsShifts(x: bv64)
    ensures Shift2(x) == Shift(Shift(x))
  {
  }

  lemma ShiftIsFeed(x: bv64)
    ensures Shift(x) == Feed(x, false)
  {
  }

  lemma Shift2IsSerial(x: bv64)
    ensures Shift2(x) == Serial(Feed, x, Zeros(2))
  {
    Shift2IsShifts(x);
    TwoZeros(Feed, x);
    ShiftIsFeed(x);
    ShiftIsFeed(Shift(x));
  }

  lemma Shift8IsSerial(x: bv64)
    ensures Shift8(x) == Serial(Feed, x, Zeros(8))
  {
    var x2 := Shift2(x);
    var x4 := Shift2(x2);
    var x6 := Shift2(x4);
    Shift2IsSerial(x);
    Shift2IsSerial(x2);
    Shift2IsSerial(x4);
    Shift2IsSerial(x6);
    EightZeros(Feed, x, x2, x4, x6);
  }

  /** All 256 entries are right. */
  lemma EntryIsSerial(i: bv8)
    ensures Entry(i) == Serial(Feed, Load(i), Zeros(8))
  {
    EntryIsShifted(i);
    Shift8IsSerial(Load(i));
  }

  lemma LoadBits(b: bv8)
    ensures var d := Load(b);
      && Leads(d) == Bit(b, 0) && Leads(d >> 1) == Bit(b, 1)
      && Leads(d >> 2) == Bit(b, 2) && Leads(d >> 3) == Bit(b, 3)
      && Leads(d >> 4) == Bit(b, 4) && Leads(d >> 5) == Bit(b, 5)
      && Leads(d >> 6) == Bit(b, 6) && Leads(d >> 7) == Bit(b, 7)
      && d >> 8 == 0
  {
  }

  lemma NextPowers(d: bv64)
    ensures Next(d) == d >> 1 && Next(Next(d)) == d >> 2 && Next(Next(Next(d))) == d >> 3
      && Next(Next(Next(Next(d)))) == d >> 4
      && Next(Next(Next(Next(Next(d))))) == d >> 5
      && Next(Next(Next(Next(Next(Next(d)))))) == d >> 6
      && Next(Next(Next(Next(Next(Next(Next(d))))))) == d >> 7
      && Next(Next(Next(Next(Next(Next(Next(Next(d)))))))) == d >> 8
  {
  }

  /** A message byte, loaded into the register, leads with its own bits and leaves nothing. */
  lemma LoadLeads(b: bv8)
    ensures Leading(Leads, Next, Load(b), 8) == BitsOf(b)
    ensures After(Next, Load(b), 8) == 0
  {
    EightLeading(Leads, Next, Load(b));
    NextPowers(Load(b));
    LoadBits(b);
  }

  lemma RestBits(r: bv64)
    ensures var d := r & 0xffff_ffff_ffff_ff00;
      && !Leads(d) && !Leads(d >> 1) && !Leads(d >> 2) && !Leads(d >> 3)
      && !Leads(d >> 4) && !Leads(d >> 5) && !Leads(d >> 6) && !Leads(d >> 7)
      && d >> 8 == r >> 8
  {
  }

  /** The rest of the register leads with zeros, and moves down. */
  lemma RestLeads(r: bv64)
    ensures Leading(Leads, Next, r & 0xffff_ffff_ffff_ff00, 8) == Zeros(8)
  {
    EightLeading(Leads, Next, r & 0xffff_ffff_ffff_ff00);
    NextPowers(r & 0xffff_ffff_ffff_ff00);
    RestBits(r);
  }

  lemma RestMoves(r: bv64)
    ensures After(Next, r & 0xffff_ffff_ffff_ff00, 8) == r >> 8
  {
    EightLeading(Leads, Next, r & 0xffff_ffff_ffff_ff00);
    NextPowers(r & 0xffff_ffff_ffff_ff00);
    RestShifts(r);
  }

  lemma RestShifts(r: bv64)
    ensures (r & 0xffff_ffff_ffff_ff00) >> 8 == r >> 8
  {
  }

  lemma LowByte(r: bv64)
    ensures ((r & 0xff) as bv8) as bv64 == r & 0xff
  {
  }

  lemma LoadSum(x: bv8, y: bv8)
    ensures Load(x ^ y) == Load(x) ^ Load(y)
  {
  }

  lemma SplitRegister(r: bv64, low: bv64, load: bv64)
    requires low == r & 0xff
    ensures r ^ load == (low ^ load) ^ (r & 0xffff_ffff_ffff_ff00)
  {
  }

  /** The byte meets the low end of the register. */
  lemma Regroup(r: bv64, b: bv8)
    ensures Sum(r, Load(b)) == Sum(Load((r & 0xff) as bv8 ^ b), r & 0xffff_ffff_ffff_ff00)
  {
    var low := (r & 0xff) as bv8;
    LowByte(r);
    LoadSum(low, b);
    SplitRegister(r, low as bv64, Load(b));
  }

  lemma SumLaws(x: bv64, y: bv64)
    ensures Sum(x, 0) == x && Sum(x, y) == Sum(y, x)
  {
  }

  lemma StepFromParts(r: bv64, load: bv64, hi: bv64, lo: bv64, rest: bv64, entry: bv64, bits: seq<bool>)
    requires Sum(r, load) == Sum(hi, lo)
    requires Leading(Leads, Next, load, 8) == bits && After(Next, load, 8) == 0
    requires Leading(Leads, Next, lo, 8) == Zeros(8) && After(Next, lo, 8) == rest
    requires entry == Serial(Feed, hi, Zeros(8))
    ensures Sum(entry, rest) == Serial(Feed, r, bits)
  {
    RegisterIsLinear();
    ByteStep(Feed, Leads, Sum, Next, r, load, hi, lo, 0, rest, bits);
    SumLaws(Serial(Feed, r, bits), 0);
  }

  /** One byte by table is the same as its eight bits. */
  lemma StepIsSerial(r: bv64, b: bv8)
    ensures Sum(Entry((r & 0xff) as bv8 ^ b), r >> 8) == Serial(Feed, r, BitsOf(b))
  {
    Regroup(r, b);
    LoadLeads(b);
    RestLeads(r);
    RestMoves(r);
    EntryIsSerial((r & 0xff) as bv8 ^ b);
    var i := (r & 0xff) as bv8 ^ b;
    StepFromParts(r, Load(b), Load(i), r & 0xffff_ffff_ffff_ff00, r >> 8, Entry(i), BitsOf(b));
  }

  /** The loop body of the checksum. */
  method Update(r: bv64, b: bv8) returns (r': bv64)
    ensures r' == Serial(Feed, r, BitsOf(b))
  {
    StepIsSerial(r, b);
    SumLaws(Entry((r & 0xff) as bv8 ^ b), r >> 8);
    r' := Entry((r & 0xff) as bv8 ^ b) ^ (r >> 8);
  }

  /** `crc64`. */
  method Checksum(crc0: bv64, s: seq<bv8>) returns (crc: bv64)
    ensures crc == Crc(crc0, s)
  {
    crc := crc0;
    var counter := 0;
    while counter < |s|
      invariant 0 <= counter <= |s|
      invariant crc == Crc(crc0, s[..counter])
    {
      SerialOneMore(Feed, BitsOf, crc0, s[..counter], s[counter]);
      assert s[..counter] + [s[counter]] == s[..counter + 1];
      crc := Update(crc, s[counter]);
      counter := counter + 1;
    }
    assert s[..counter] == s;
  }

  // ---------------------------------------------------------------- an example

  /** The table entry for `i` is this. */
  lemma Entries()
    ensures Shift8(Load(0x31)) == 0xfdc17184a9f739fa
    ensures Shift8(Load(0xc8)) == 0xe1fea520be311aaf
    ensures Shift8(Load(0xa5)) == 0xd55df8e515432941
    ensures Shift8(Load(0x98)) == 0x438c80a64ce15841
    ensures Shift8(Load(0xc5)) == 0xf036dc2f7e51db2c
    ensures Shift8(Load(0x3b)) == 0xa3597ca0a188d57d
    ensures Shift8(Load(0x34)) == 0x4721e43f0183060c
    ensures Shift8(Load(0x7d)) == 0x49aba2fe23cc5c6f
    ensures Shift8(Load(0xfb)) == 0xe98f353477ad31a7
  {
  }

  lemma EntryIs(i: bv8)
    ensures Entry(i) == Shift8(Load(i))
  {
    EntryIsShifted(i);
  }

  /** One byte enters the register. */
  lemma Enters(r: bv64, b: bv8, i: bv8, r': bv64)
    requires i == (r & 0xff) as bv8 ^ b && r' == Sum(Shift8(Load(i)), r >> 8)
    ensures Serial(Feed, r, BitsOf(b)) == r'
  {
    StepIsSerial(r, b);
    EntryIs(i);
  }

  /** One byte of a message is read. */
  lemma Eats(r: bv64, msg: seq<bv8>, k: nat, i: bv8, r': bv64)
    requires k < |msg| && i == (r & 0xff) as bv8 ^ msg[k] && r' == Sum(Shift8(Load(i)), r >> 8)
    ensures Crc(r, msg[k..]) == Crc(r', msg[k + 1..])
  {
    Enters(r, msg[k], i, r');
    SerialMessage(Feed, BitsOf, r, [msg[k]], msg[k + 1..]);
    assert msg[k..] == [msg[k]] + msg[k + 1..];
    OneByte(BitsOf, msg[k]);
  }

  lemma FirstThree(digits: seq<bv8>)
    requires digits == [0x31, 0x32, 0x33, 0x34, 0x35, 0x36, 0x37, 0x38, 0x39]
    ensures Crc(0x0000000000000000, digits[0..]) == Crc(0xd5bcfb814479b1ac, digits[3..])
  {
    Entries();
    Eats(0x0000000000000000, digits, 0, 0x31, 0xfdc17184a9f739fa);
    Eats(0xfdc17184a9f739fa, digits, 1, 0xc8, 0xe10364513a98ed96);
    Eats(0xe10364513a98ed96, digits, 2, 0xa5, 0xd5bcfb814479b1ac);
  }

  lemma NextThree(digits: seq<bv8>)
    requires digits == [0x31, 0x32, 0x33, 0x34, 0x35, 0x36, 0x37, 0x38, 0x39]
    ensures Crc(0xd5bcfb814479b1ac, digits[3..]) == Crc(0xa3a90925b2ab4903, digits[6..])
  {
    Entries();
    Eats(0xd5bcfb814479b1ac, digits, 3, 0x98, 0x43593c5dcda521f0);
    Eats(0x43593c5dcda521f0, digits, 4, 0xc5, 0xf0758513239c7e0d);
    Eats(0xf0758513239c7e0d, digits, 5, 0x3b, 0xa3a90925b2ab4903);
  }

  lemma LastThree(digits: seq<bv8>)
    requires digits == [0x31, 0x32, 0x33, 0x34, 0x35, 0x36, 0x37, 0x38, 0x39]
    ensures Crc(0xa3a90925b2ab4903, digits[6..]) == Crc(0xe9c6d914c4b8d9ca, digits[9..])
  {
    Entries();
    Eats(0xa3a90925b2ab4903, digits, 6, 0x34, 0x47824d362431ad45);
    Eats(0x47824d362431ad45, digits, 7, 0x7d, 0x49ec20b315e86dc2);
    Eats(0x49ec20b315e86dc2, digits, 8, 0xfb, 0xe9c6d914c4b8d9ca);
  }

  /** The checksum of the digits from 1 to 9, published with the polynomial. */
  lemma CheckValue(digits: seq<bv8>)
    requires digits == [0x31, 0x32, 0x33, 0x34, 0x35, 0x36, 0x37, 0x38, 0x39]
    ensures Crc(0, digits) == 0xe9c6d914c4b8d9ca
  {
    FirstThree(digits);
    NextThree(digits);
    LastThree(digits);
    assert digits[0..] == digits && digits[9..] == [];
  }
}
