/** Which texts `StringUtil::splitArgs` refuses, said of the text alone: a quoted section of it is not
    closed, or goes on behind its closing quote. */
module SplitBalance {
  import opened Basics
  import opened SplitArgs

  /** How many backslashes lie directly before position `k`. */
  function Backslashes(t: seq<byte>, k: nat): nat
    requires k <= |t|
  {
    if k > 0 && t[k - 1] == BACKSLASH then Backslashes(t, k - 1) + 1 else 0
  }

  /** `t` is what follows an opening quote `q`. A double quote closes the section unless an odd number of
      backslashes lies before it, an apostrophe unless there is a backslash right before it. */
  predicate Closing(t: seq<byte>, q: byte, k: nat)
    requires k < |t|
  {
    t[k] == q && if q == QUOTE then Backslashes(t, k) % 2 == 0 else k == 0 || t[k - 1] != BACKSLASH
  }

  /** The section is closed at `k`, the first quote that can close it, with no zero byte before. */
  ghost predicate ClosedAt(t: seq<byte>, q: byte, k: nat) {
    k < |t| && Closing(t, q, k) && forall j: nat {:trigger Closing(t, q, j)} :: j < k ==> t[j] != 0 && !Closing(t, q, j)
  }

  /** Every quoted section is closed, and ends its argument there. A zero byte ends the text. */
  ghost predicate Balanced(t: seq<byte>)
    decreases |t|
  {
    if Peek(t, 0) == 0 then true
    else if t[0] == QUOTE || t[0] == APOSTROPHE then
      exists k: nat :: ClosedAt(t[1..], t[0], k) && EndsArgument(Peek(t[1..], k + 1)) && Balanced(t[1..][k + 1..])
    else Balanced(t[1..])
  }

  // ---------------------------------------------------------------- sections

  /** Where a section closes does not change when its first `n` bytes are taken away. */
  ghost predicate Shifts(t: seq<byte>, q: byte, n: nat) {
    && n <= |t|
    && forall k: nat {:trigger ClosedAt(t, q, k)} :: ClosedAt(t, q, k) <==> k >= n && ClosedAt(t[n..], q, k - n)
  }

  lemma ShiftsBy(t: seq<byte>, q: byte, n: nat)
    requires n <= |t| && forall j: nat {:trigger Closing(t, q, j)} :: j < n ==> t[j] != 0 && !Closing(t, q, j)
    requires forall j: nat {:trigger Closing(t[n..], q, j)} :: j + n < |t| ==>
      Closing(t[n..], q, j) == Closing(t, q, j + n)
    ensures Shifts(t, q, n)
  {
    var u := t[n..];
    forall k: nat ensures ClosedAt(t, q, k) <==> k >= n && ClosedAt(u, q, k - n) {
      if k >= n && k < |t| {
        assert Closing(u, q, k - n) == Closing(t, q, k);
        if ClosedAt(t, q, k) {
          forall j: nat | j < k - n ensures u[j] != 0 && !Closing(u, q, j) {
            assert Closing(u, q, j) == Closing(t, q, j + n);
          }
        }
        if ClosedAt(u, q, k - n) {
          forall j: nat | j < k ensures t[j] != 0 && !Closing(t, q, j) {
            if j >= n {
              assert Closing(u, q, j - n) == Closing(t, q, j - n + n);
              assert u[j - n] == t[j];
            } else {
              assert !Closing(t, q, j);
            }
          }
        }
      }
    }
  }

  lemma {:induction false} SameBackslashes(t: seq<byte>, k: nat)
    requires t != [] && t[0] != BACKSLASH && k < |t|
    ensures Backslashes(t[1..], k) == Backslashes(t, k + 1)
  {
    if k > 0 {
      SameBackslashes(t, k - 1);
    }
  }

  lemma {:induction false} TwoBackslashes(t: seq<byte>, k: nat)
    requires |t| >= 2 && t[0] == BACKSLASH && k + 2 <= |t|
    ensures Backslashes(t[2..], k) % 2 == Backslashes(t, k + 2) % 2
  {
    if k > 0 {
      TwoBackslashes(t, k - 1);
    } else {
      assert Backslashes(t, 1) == Backslashes(t, 0) + 1 == 1;
    }
  }

  /** A byte that is no backslash, no quote and not zero. */
  lemma DoubleShiftsOne(t: seq<byte>)
    requires t != [] && t[0] != BACKSLASH && t[0] != QUOTE && t[0] != 0
    ensures Shifts(t, QUOTE, 1)
  {
    forall j: nat | j + 1 < |t| ensures Closing(t[1..], QUOTE, j) == Closing(t, QUOTE, j + 1) {
      SameBackslashes(t, j);
    }
    ShiftsBy(t, QUOTE, 1);
  }

  /** A backslash and the byte behind it. */
  lemma DoubleShiftsTwo(t: seq<byte>)
    requires |t| >= 2 && t[0] == BACKSLASH && t[1] != 0
    ensures Shifts(t, QUOTE, 2)
  {
    assert Backslashes(t, 1) == Backslashes(t, 0) + 1 == 1;
    forall j: nat | j + 2 < |t| ensures Closing(t[2..], QUOTE, j) == Closing(t, QUOTE, j + 2) {
      TwoBackslashes(t, j);
    }
    ShiftsBy(t, QUOTE, 2);
  }

  lemma ShiftsTwice(t: seq<byte>, q: byte, m: nat, n: nat)
    requires Shifts(t, q, m) && Shifts(t[m..], q, n)
    ensures Shifts(t, q, m + n)
  {
    assert t[m..][n..] == t[m + n..];
    forall k: nat ensures ClosedAt(t, q, k) <==> k >= m + n && ClosedAt(t[m + n..], q, k - (m + n)) {
      if k >= m {
        assert ClosedAt(t[m..], q, k - m) <==> k - m >= n && ClosedAt(t[m..][n..], q, k - m - n);
      }
    }
  }

  /** A byte given by two hexadecimal digits. */
  lemma DoubleShiftsFour(t: seq<byte>)
    requires |t| >= 4 && t[0] == BACKSLASH && t[1] == 120 && IsHexDigit(t[2]) && IsHexDigit(t[3])
    ensures Shifts(t, QUOTE, 4)
  {
    DoubleShiftsTwo(t);
    DoubleShiftsOne(t[2..]);
    ShiftsTwice(t, QUOTE, 2, 1);
    DoubleShiftsOne(t[3..]);
    ShiftsTwice(t, QUOTE, 3, 1);
  }

  lemma SingleShifts(t: seq<byte>, n: nat)
    requires n == 1 || n == 2
    requires n == 1 ==> t != [] && t[0] != APOSTROPHE && t[0] != 0
    requires n == 1 ==> !(t[0] == BACKSLASH && Peek(t, 1) == APOSTROPHE)
    requires n == 2 ==> |t| >= 2 && t[0] == BACKSLASH && t[1] == APOSTROPHE
    ensures Shifts(t, APOSTROPHE, n)
  {
    ShiftsBy(t, APOSTROPHE, n);
  }

  /** A round of the scanner inside quotes passes over bytes that close nothing. */
  lemma RoundShifts(t: seq<byte>, mode: Mode)
    requires mode != Plain && Next(t, mode).Go?
    ensures Next(t, mode).mode == mode
    ensures Shifts(t, QuoteOf(mode), Next(t, mode).used) || (t[0] == BACKSLASH && Peek(t, 1) == 0)
  {
    if mode == InSingle {
      SingleShifts(t, Next(t, mode).used);
    } else if t[0] != BACKSLASH {
      DoubleShiftsOne(t);
    } else if Next(t, mode).used == 4 {
      DoubleShiftsFour(t);
    } else if Next(t, mode).used == 2 {
      DoubleShiftsTwo(t);
    }
  }

  function QuoteOf(mode: Mode): byte
    requires mode != Plain
  {
    if mode == InDouble then QUOTE else APOSTROPHE
  }

  lemma NeverCloses(t: seq<byte>, q: byte, k: nat)
    requires (q == QUOTE || q == APOSTROPHE) && t != []
    requires t[0] == 0 || (t[0] == BACKSLASH && Peek(t, 1) == 0)
    ensures !ClosedAt(t, q, k)
  {
    var first := Closing(t, q, 0);
    if |t| > 1 {
      var second := Closing(t, q, 1);
    }
  }

  /** `k` is where the section closes, if it does. */
  ghost predicate CloseIs(t: seq<byte>, q: byte, k: Option<nat>) {
    if k.Some? then ClosedAt(t, q, k.value) else forall j: nat :: !ClosedAt(t, q, j)
  }

  /** Inside quotes the scanner succeeds exactly when the section is closed and ends its argument. */
  ghost predicate ReadsSection(t: seq<byte>, mode: Mode, current: seq<byte>, k: Option<nat>) {
    var r := Argument(t, mode, current);
    && (r.Some? <==> k.Some? && EndsArgument(Peek(t, k.value + 1)))
    && (r.Some? ==> k.value < |t| && r.value.1 == t[k.value + 1..])
  }

  function Later(k: Option<nat>, n: nat): Option<nat> {
    if k.Some? then Some(k.value + n) else None
  }

  lemma ClosesLater(t: seq<byte>, q: byte, n: nat, k: Option<nat>)
    requires Shifts(t, q, n) && CloseIs(t[n..], q, k)
    ensures CloseIs(t, q, Later(k, n))
  {
    if k.Some? {
      assert ClosedAt(t, q, k.value + n) <==> ClosedAt(t[n..], q, k.value);
    }
  }

  lemma ReadsLater(t: seq<byte>, mode: Mode, current: seq<byte>, k: Option<nat>)
    requires var m := Next(t, mode);
      m.Go? && m.mode == mode && ReadsSection(t[m.used..], mode, current + m.more, k)
    ensures ReadsSection(t, mode, current, Later(k, Next(t, mode).used))
  {
    ArgumentStep(t, mode, current);
    var n := Next(t, mode).used;
    if k.Some? && n + k.value < |t| {
      assert t[n..][k.value + 1..] == t[n + k.value + 1..];
    }
  }

  lemma {:induction false} Section(t: seq<byte>, mode: Mode, current: seq<byte>) returns (k: Option<nat>)
    requires mode != Plain
    ensures CloseIs(t, QuoteOf(mode), k) && ReadsSection(t, mode, current, k)
    decreases |t|
  {
    var q := QuoteOf(mode);
    if t == [] {
      k := None;
    } else if t[0] == 0 || (t[0] == BACKSLASH && Peek(t, 1) == 0) {
      forall j ensures !ClosedAt(t, q, j) {
        NeverCloses(t, q, j);
      }
      k := None;
      Unclosed(t, mode, current);
    } else if t[0] == q {
      k := Some(0);
    } else {
      RoundShifts(t, mode);
      var m := Next(t, mode);
      var rest := Section(t[m.used..], mode, current + m.more);
      ClosesLater(t, q, m.used, rest);
      ReadsLater(t, mode, current, rest);
      k := Later(rest, m.used);
    }
  }

  lemma Unclosed(t: seq<byte>, mode: Mode, current: seq<byte>)
    requires mode != Plain && t != [] && (t[0] == 0 || (t[0] == BACKSLASH && Peek(t, 1) == 0))
    ensures Argument(t, mode, current).None?
  {
    if t[0] != 0 {
      assert Next(t, mode) == Go(mode, [t[0]], 1);
      assert Next(t[1..], mode) == Fail;
    }
  }

  lemma OneClosing(t: seq<byte>, q: byte, j: nat, k: nat)
    requires ClosedAt(t, q, j) && ClosedAt(t, q, k)
    ensures j == k
  {
  }

  // ---------------------------------------------------------------- texts

  /** An argument is read exactly when what it takes of the text is balanced. */
  lemma {:induction false} ArgumentBalance(t: seq<byte>, current: seq<byte>)
    ensures var r := Argument(t, Plain, current);
      if r.Some? then Balanced(t) <==> Balanced(r.value.1) else !Balanced(t)
    decreases |t|
  {
    if Peek(t, 0) == 0 || Next(t, Plain) == Stop {
    } else if t[0] == QUOTE || t[0] == APOSTROPHE {
      var mode := Next(t, Plain).mode;
      var k := Section(t[1..], mode, current + []);
      assert QuoteOf(mode) == t[0];
      forall j: nat | ClosedAt(t[1..], t[0], j) ensures k == Some(j) {
        if k.Some? {
          OneClosing(t[1..], t[0], j, k.value);
        }
      }
    } else {
      ArgumentBalance(t[1..], current + [t[0]]);
    }
  }

  lemma {:induction false} BlanksBalance(t: seq<byte>)
    ensures Balanced(SkipBlanks(t)) <==> Balanced(t)
  {
    if t != [] && IsSpace(t[0]) {
      BlanksBalance(t[1..]);
    }
  }

  /** `splitArgs` accepts exactly the balanced texts. */
  lemma {:induction false} SplitsIff(t: seq<byte>)
    ensures Split(t).Some? <==> Balanced(t)
    decreases |t|
  {
    var u := SkipBlanks(t);
    BlanksBalance(t);
    if Peek(u, 0) != 0 {
      ArgumentAdvances(u);
      ArgumentBalance(u, []);
      var r := Argument(u, Plain, []);
      if r.Some? {
        SplitsIff(r.value.1);
      }
    }
  }
}
