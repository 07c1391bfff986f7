/** What the two checksums share: feedback shift registers as linear systems, and reading a table that
    is written as 32 rows of eight entries. */
module ShiftRegister {

  /** The register after `bits` have entered it one at a time. */
  function Serial<T>(feed: (T, bool) -> T, r: T, bits: seq<bool>): T
    decreases |bits|
  {
    if bits == [] then r else Serial(feed, feed(r, bits[0]), bits[1..])
  }

  lemma {:induction false} SerialConcat<T>(feed: (T, bool) -> T, r: T, s: seq<bool>, t: seq<bool>)
    ensures Serial(feed, r, s + t) == Serial(feed, Serial(feed, r, s), t)
    decreases |s|
  {
    if s == [] {
      assert s + t == t;
    } else {
      SerialConcat(feed, feed(r, s[0]), s[1..], t);
      assert (s + t)[1..] == s[1..] + t;
    }
  }

  /** The bits of a message, byte by byte. */
  function MessageBits<B>(bitsOf: B -> seq<bool>, msg: seq<B>): seq<bool> {
    if msg == [] then [] else bitsOf(msg[0]) + MessageBits(bitsOf, msg[1..])
  }

  lemma MessageHead<B>(bitsOf: B -> seq<bool>, s: seq<B>, t: seq<B>)
    requires s != []
    ensures MessageBits(bitsOf, s + t) == bitsOf(s[0]) + MessageBits(bitsOf, s[1..] + t)
  {
    assert (s + t)[1..] == s[1..] + t;
  }

  lemma Regroup<T>(a: seq<T>, b: seq<T>, c: seq<T>)
    ensures a + b + c == a + (b + c)
  {
  }

  lemma {:induction false} MessageConcat<B>(bitsOf: B -> seq<bool>, s: seq<B>, t: seq<B>)
    ensures MessageBits(bitsOf, s + t) == MessageBits(bitsOf, s) + MessageBits(bitsOf, t)
  {
    if s == [] {
      assert s + t == t;
    } else {
      MessageConcat(bitsOf, s[1..], t);
      MessageHead(bitsOf, s, t);
      Regroup(bitsOf(s[0]), MessageBits(bitsOf, s[1..]), MessageBits(bitsOf, t));
    }
  }

  /** The register over a message continues after a first part of it. */
  lemma SerialMessage<T, B>(feed: (T, bool) -> T, bitsOf: B -> seq<bool>, r: T, s: seq<B>, t: seq<B>)
    ensures Serial(feed, r, MessageBits(bitsOf, s + t))
         == Serial(feed, Serial(feed, r, MessageBits(bitsOf, s)), MessageBits(bitsOf, t))
  {
    MessageConcat(bitsOf, s, t);
    SerialConcat(feed, r, MessageBits(bitsOf, s), MessageBits(bitsOf, t));
  }

  lemma SerialOneMore<T, B>(feed: (T, bool) -> T, bitsOf: B -> seq<bool>, r: T, msg: seq<B>, b: B)
    ensures Serial(feed, r, MessageBits(bitsOf, msg + [b]))
         == Serial(feed, Serial(feed, r, MessageBits(bitsOf, msg)), bitsOf(b))
  {
    SerialMessage(feed, bitsOf, r, msg, [b]);
    OneByte(bitsOf, b);
  }

  lemma OneByte<B>(bitsOf: B -> seq<bool>, b: B)
    ensures MessageBits(bitsOf, [b]) == bitsOf(b)
  {
  }

  function Zeros(n: nat): seq<bool> {
    if n == 0 then [] else [false] + Zeros(n - 1)
  }

  /** The next `n` bits that will lead in `d`, and `d` after they have left. */
  function Leading<T>(leads: T -> bool, next: T -> T, d: T, n: nat): seq<bool>
    decreases n
  {
    if n == 0 then [] else [leads(d)] + Leading(leads, next, next(d), n - 1)
  }

  function After<T>(next: T -> T, d: T, n: nat): T
    decreases n
  {
    if n == 0 then d else After(next, next(d), n - 1)
  }

  /** Adding `d` to the register before a step is feeding the leading bit of `d` and adding the rest. */
  ghost predicate Linear<T(!new)>(feed: (T, bool) -> T, leads: T -> bool, sum: (T, T) -> T, next: T -> T) {
    forall x, d :: feed(sum(x, d), false) == sum(feed(x, leads(d)), next(d))
  }

  /** The same over any number of steps. */
  lemma {:induction false} SumRule<T(!new)>(feed: (T, bool) -> T, leads: T -> bool, sum: (T, T) -> T, next: T -> T,
                                              x: T, d: T, n: nat)
    requires Linear(feed, leads, sum, next)
    ensures Serial(feed, sum(x, d), Zeros(n)) == sum(Serial(feed, x, Leading(leads, next, d, n)), After(next, d, n))
    decreases n
  {
    if n > 0 {
      SumRule(feed, leads, sum, next, feed(x, leads(d)), next(d), n - 1);
      assert Zeros(n)[1..] == Zeros(n - 1);
      assert Leading(leads, next, d, n)[1..] == Leading(leads, next, next(d), n - 1);
    }
  }

  /** One step of a shift register with feedback `poly`. */
  function Step<T>(leads: T -> bool, next: T -> T, sum: (T, T) -> T, poly: T, r: T, bit: bool): T {
    if leads(r) != bit then sum(next(r), poly) else next(r)
  }

  ghost predicate Distributes<T(!new)>(next: T -> T, sum: (T, T) -> T) {
    forall x, d :: next(sum(x, d)) == sum(next(x), next(d))
  }

  ghost predicate LeadsAdds<T(!new)>(leads: T -> bool, sum: (T, T) -> T) {
    forall x, d :: leads(sum(x, d)) == (leads(x) != leads(d))
  }

  ghost predicate Swaps<T(!new)>(sum: (T, T) -> T, poly: T) {
    forall x, d :: sum(sum(x, d), poly) == sum(sum(x, poly), d)
  }

  /** A register whose shift distributes over addition is linear. */
  lemma StepIsLinear<T(!new)>(feed: (T, bool) -> T, leads: T -> bool, next: T -> T, sum: (T, T) -> T, poly: T)
    requires forall r, bit :: feed(r, bit) == Step(leads, next, sum, poly, r, bit)
    requires Distributes(next, sum) && LeadsAdds(leads, sum) && Swaps(sum, poly)
    ensures Linear(feed, leads, sum, next)
  {
  }

  lemma TwoZeros<T>(feed: (T, bool) -> T, x: T)
    ensures Serial(feed, x, Zeros(2)) == feed(feed(x, false), false)
  {
    assert Zeros(2)[1..] == Zeros(1) && Zeros(1)[1..] == [];
    assert Serial(feed, feed(x, false), Zeros(1)) == feed(feed(x, false), false);
  }

  lemma EightZeros<T>(feed: (T, bool) -> T, x: T, x2: T, x4: T, x6: T)
    requires x2 == Serial(feed, x, Zeros(2)) && x4 == Serial(feed, x2, Zeros(2)) && x6 == Serial(feed, x4, Zeros(2))
    ensures Serial(feed, x, Zeros(8)) == Serial(feed, x6, Zeros(2))
  {
    assert Zeros(2) == [false, false] && Zeros(4) == Zeros(2) + Zeros(2);
    assert Zeros(6) == Zeros(4) + Zeros(2) && Zeros(8) == Zeros(6) + Zeros(2);
    SerialConcat(feed, x, Zeros(2), Zeros(2));
    SerialConcat(feed, x, Zeros(4), Zeros(2));
    SerialConcat(feed, x, Zeros(6), Zeros(2));
  }

  lemma EightLeading<T>(leads: T -> bool, next: T -> T, d: T)
    ensures Leading(leads, next, d, 8) ==
      [leads(d), leads(next(d)), leads(next(next(d))), leads(next(next(next(d)))),
       leads(next(next(next(next(d))))), leads(next(next(next(next(next(d)))))),
       leads(next(next(next(next(next(next(d))))))), leads(next(next(next(next(next(next(next(d)))))))) ]
    ensures After(next, d, 8) == next(next(next(next(next(next(next(next(d))))))))
  {
    var d1 := next(d);
    var d2 := next(d1);
    var d3 := next(d2);
    var d4 := next(d3);
    var d5 := next(d4);
    var d6 := next(d5);
    var d7 := next(d6);
    assert Leading(leads, next, d6, 2) == [leads(d6), leads(d7)] && After(next, d6, 2) == next(d7);
    assert Leading(leads, next, d4, 4) == [leads(d4), leads(d5)] + Leading(leads, next, d6, 2)
      && After(next, d4, 4) == After(next, d6, 2);
    assert Leading(leads, next, d2, 6) == [leads(d2), leads(d3)] + Leading(leads, next, d4, 4)
      && After(next, d2, 6) == After(next, d4, 4);
  }

  /** Eight steps at once: a byte `load` joins the register, which splits into a part `hi` that takes
      part in the feedback and a rest `lo` that only moves. */
  lemma ByteStep<T(!new)>(feed: (T, bool) -> T, leads: T -> bool, sum: (T, T) -> T, next: T -> T,
                          r: T, load: T, hi: T, lo: T, zero: T, rest: T, bits: seq<bool>)
    requires Linear(feed, leads, sum, next)
    requires sum(r, load) == sum(hi, lo)
    requires Leading(leads, next, load, 8) == bits && After(next, load, 8) == zero
    requires Leading(leads, next, lo, 8) == Zeros(8) && After(next, lo, 8) == rest
    ensures sum(Serial(feed, r, bits), zero) == sum(Serial(feed, hi, Zeros(8)), rest)
  {
    SumRule(feed, leads, sum, next, r, load, 8);
    SumRule(feed, leads, sum, next, hi, lo, 8);
  }

  /** The eight entries of a row are `f` of their indexes, which start at `base`. */
  ghost predicate RowIs<T>(row: seq<T>, f: bv8 -> T, base: bv8) {
    |row| == 8
    && row[0] == f(base) && row[1] == f(base + 1) && row[2] == f(base + 2) && row[3] == f(base + 3)
    && row[4] == f(base + 4) && row[5] == f(base + 5) && row[6] == f(base + 6) && row[7] == f(base + 7)
  }

  lemma OneRow<T>(row: seq<T>, f: bv8 -> T, base: bv8, i: bv8)
    requires RowIs(row, f, base) && base & 7 == 0 && base == i & 0xf8
    ensures (i & 7) as int < |row| && row[(i & 7) as int] == f(i)
  {
    assert i == base + (i & 7);
  }

  /** When every row is right, every entry is. */
  lemma AllRows<T>(t: seq<seq<T>>, f: bv8 -> T, i: bv8)
    requires |t| == 32
    requires RowIs(t[0], f, 0) && RowIs(t[1], f, 8) && RowIs(t[2], f, 16) && RowIs(t[3], f, 24)
    requires RowIs(t[4], f, 32) && RowIs(t[5], f, 40) && RowIs(t[6], f, 48) && RowIs(t[7], f, 56)
    requires RowIs(t[8], f, 64) && RowIs(t[9], f, 72) && RowIs(t[10], f, 80) && RowIs(t[11], f, 88)
    requires RowIs(t[12], f, 96) && RowIs(t[13], f, 104) && RowIs(t[14], f, 112) && RowIs(t[15], f, 120)
    requires RowIs(t[16], f, 128) && RowIs(t[17], f, 136) && RowIs(t[18], f, 144) && RowIs(t[19], f, 152)
    requires RowIs(t[20], f, 160) && RowIs(t[21], f, 168) && RowIs(t[22], f, 176) && RowIs(t[23], f, 184)
    requires RowIs(t[24], f, 192) && RowIs(t[25], f, 200) && RowIs(t[26], f, 208) && RowIs(t[27], f, 216)
    requires RowIs(t[28], f, 224) && RowIs(t[29], f, 232) && RowIs(t[30], f, 240) && RowIs(t[31], f, 248)
    ensures (i >> 3) as int < |t| && (i & 7) as int < |t[(i >> 3) as int]|
    ensures t[(i >> 3) as int][(i & 7) as int] == f(i)
  {
    if i < 8 {
      OneRow(t[0], f, 0, i);
    } else if i < 16 {
      OneRow(t[1], f, 8, i);
    } else if i < 24 {
      OneRow(t[2], f, 16, i);
    } else if i < 32 {
      OneRow(t[3], f, 24, i);
    } else if i < 40 {
      OneRow(t[4], f, 32, i);
    } else if i < 48 {
      OneRow(t[5], f, 40, i);
    } else if i < 56 {
      OneRow(t[6], f, 48, i);
    } else if i < 64 {
      OneRow(t[7], f, 56, i);
    } else if i < 72 {
      OneRow(t[8], f, 64, i);
    } else if i < 80 {
      OneRow(t[9], f, 72, i);
    } else if i < 88 {
      OneRow(t[10], f, 80, i);
    } else if i < 96 {
      OneRow(t[11], f, 88, i);
    } else if i < 104 {
      OneRow(t[12], f, 96, i);
    } else if i < 112 {
      OneRow(t[13], f, 104, i);
    } else if i < 120 {
      OneRow(t[14], f, 112, i);
    } else if i < 128 {
      OneRow(t[15], f, 120, i);
    } else if i < 136 {
      OneRow(t[16], f, 128, i);
    } else if i < 144 {
      OneRow(t[17], f, 136, i);
    } else if i < 152 {
      OneRow(t[18], f, 144, i);
    } else if i < 160 {
      OneRow(t[19], f, 152, i);
    } else if i < 168 {
      OneRow(t[20], f, 160, i);
    } else if i < 176 {
      OneRow(t[21], f, 168, i);
    } else if i < 184 {
      OneRow(t[22], f, 176, i);
    } else if i < 192 {
      OneRow(t[23], f, 184, i);
    } else if i < 200 {
      OneRow(t[24], f, 192, i);
    } else if i < 208 {
      OneRow(t[25], f, 200, i);
    } else if i < 216 {
      OneRow(t[26], f, 208, i);
    } else if i < 224 {
      OneRow(t[27], f, 216, i);
    } else if i < 232 {
      OneRow(t[28], f, 224, i);
    } else if i < 240 {
      OneRow(t[29], f, 232, i);
    } else if i < 248 {
      OneRow(t[30], f, 240, i);
    } else {
      OneRow(t[31], f, 248, i);
    }
  }
}
