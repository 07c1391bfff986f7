/** `StringUtil::string2ll` and the decimal form that `std::to_string` prints. Parsing accepts exactly
    the printed forms of the 64-bit integers. */
module DecimalText {
  import opened Basics

  const MINUS: byte := 45

  const ULLONG_MAX: int := 0xffff_ffff_ffff_ffff
  const LLONG_MIN: int := -0x8000_0000_0000_0000
  const LLONG_MAX: int := 0x7fff_ffff_ffff_ffff

  predicate IsDigit(c: byte) {
    48 <= c <= 57
  }

  /** The decimal digits of a number, without leading zeros. */
  function Digits(n: nat): (s: seq<byte>)
    ensures s != []
  {
    if n < 10 then [48 + n] else Digits(n / 10) + [48 + n % 10]
  }

  /** `std::to_string` */
  function Render(v: int): (s: seq<byte>)
    ensures s != []
  {
    if v < 0 then [MINUS] + Digits(-v) else Digits(v)
  }

  ghost predicate AllDigits(s: seq<byte>) {
    forall k :: 0 <= k < |s| ==> IsDigit(s[k])
  }

  /** The number that a string of digits denotes. */
  function Value(s: seq<byte>): (n: nat)
    requires forall k :: 0 <= k < |s| ==> IsDigit(s[k])
  {
    if s == [] then 0
    else
      assert IsDigit(s[|s| - 1]);
      10 * Value(s[..|s| - 1]) + (s[|s| - 1] as int - 48)
  }

  /** A string of digits without a leading zero. */
  ghost predicate Canonical(s: seq<byte>) {
    s != [] && AllDigits(s) && (s[0] == 48 ==> |s| == 1)
  }

  lemma {:induction false} DigitsAreCanonical(n: nat)
    ensures Canonical(Digits(n)) && Value(Digits(n)) == n
    ensures Digits(n)[0] == 48 <==> n == 0
  {
    if n >= 10 {
      DigitsAreCanonical(n / 10);
      assert Digits(n)[..|Digits(n)| - 1] == Digits(n / 10);
    }
  }

  /** The printed form is the only canonical one. */
  lemma {:induction false} CanonicalIsDigits(s: seq<byte>)
    requires Canonical(s)
    ensures Digits(Value(s)) == s && (s[0] == 48 <==> Value(s) == 0)
  {
    if |s| > 1 {
      var front := s[..|s| - 1];
      assert Canonical(front);
      CanonicalIsDigits(front);
      assert Value(s) / 10 == Value(front) && Value(s) % 10 == s[|s| - 1] - 48;
      assert s == front + [s[|s| - 1]];
    } else {
      assert s[..0] == [];
    }
  }

  /** A prefix denotes no more than the whole. */
  lemma {:induction false} PrefixValue(s: seq<byte>, n: nat)
    requires AllDigits(s) && n <= |s|
    ensures Value(s[..n]) <= Value(s)
    ensures n < |s| ==> 10 * Value(s[..n]) + (s[n] as int - 48) <= Value(s)
    decreases |s|
  {
    if n < |s| {
      var front := s[..|s| - 1];
      PrefixValue(front, n);
      assert front[..n] == s[..n];
      if n < |front| {
      } else {
        assert s[..n] == front;
      }
    } else {
      assert s[..n] == s;
    }
  }

  lemma ValueNext(s: seq<byte>, n: nat)
    requires n < |s| && AllDigits(s[..n + 1])
    ensures AllDigits(s[..n]) && Value(s[..n + 1]) == 10 * Value(s[..n]) + (s[n] as int - 48)
  {
    assert s[..n + 1][..n] == s[..n];
    forall k | 0 <= k < n ensures IsDigit(s[..n][k]) {
      assert s[..n][k] == s[..n + 1][k];
    }
  }

  /** The digits of a printed number, without its sign. */
  lemma RenderShape(v: int)
    ensures var neg := Render(v)[0] == MINUS; var ds := Render(v)[if neg then 1 else 0..];
      && neg == (v < 0) && Canonical(ds) && Value(ds) == (if neg then -v else v)
      && (neg ==> ds[0] != 48)
  {
    DigitsAreCanonical(if v < 0 then -v else v);
  }

  /** Different integers are printed differently. */
  lemma RenderIsInjective(v: int, w: int)
    requires Render(v) == Render(w)
    ensures v == w
  {
    RenderShape(v);
    RenderShape(w);
  }

  /** No integer of the range is printed as `s`. */
  ghost predicate NotPrinted(s: seq<byte>, least: int, most: int) {
    forall v :: least <= v <= most ==> Render(v) != s
  }

  /** The loop over the digits after the first one: both overflow tests fire only when the number
      exceeds 2^64 - 1. */
  method ParseDigits(ds: seq<byte>) returns (v: nat, n: nat, overflow: bool)
    requires ds != [] && 49 <= ds[0] <= 57
    ensures 1 <= n <= |ds| && AllDigits(ds[..n]) && v == Value(ds[..n]) < 0x1_0000_0000_0000_0000
    ensures overflow ==> n < |ds| && IsDigit(ds[n]) && 10 * v + (ds[n] as int - 48) >= 0x1_0000_0000_0000_0000
    ensures !overflow ==> n == |ds| || !IsDigit(ds[n])
  {
    v, n := ds[0] as int - 48, 1;
    assert ds[..1] == [ds[0]] && ds[..1][..0] == [];
    while n < |ds| && IsDigit(ds[n])
      invariant 1 <= n <= |ds| && AllDigits(ds[..n]) && v == Value(ds[..n]) < 0x1_0000_0000_0000_0000
    {
      if v > 0xffff_ffff_ffff_ffff / 10 {
        return v, n, true;
      }
      if v * 10 > 0xffff_ffff_ffff_ffff - (ds[n] as int - 48) {
        return v, n, true;
      }
      ValueNext(ds, n);
      v := v * 10 + (ds[n] as int - 48);
      n := n + 1;
    }
    overflow := false;
  }

  /** What is not a sign and canonical digits is not printed. */
  lemma NotShaped(s: seq<byte>, sign: nat, least: int, most: int)
    requires sign <= 1 && sign <= |s| && (sign == 1 <==> s != [] && s[0] == MINUS)
    requires !Canonical(s[sign..]) || (sign == 1 && s[1] == 48)
    ensures NotPrinted(s, least, most)
  {
    forall v | least <= v <= most ensures Render(v) != s {
      RenderShape(v);
    }
  }

  /** What denotes a number out of range is not printed. */
  lemma OutOfRange(s: seq<byte>, sign: nat, least: int, most: int)
    requires sign <= 1 && sign <= |s| && (sign == 1 <==> s != [] && s[0] == MINUS) && AllDigits(s[sign..])
    requires if sign == 1 then Value(s[sign..]) > -least else Value(s[sign..]) > most
    ensures NotPrinted(s, least, most)
  {
    forall v | least <= v <= most ensures Render(v) != s {
      RenderShape(v);
    }
  }

  /** The digits stop too early, or they denote too much. */
  lemma NoNumber(s: seq<byte>, sign: nat, v: nat, n: nat, overflow: bool, least: int, most: int)
    requires sign <= 1 && sign < |s| && (sign == 1 <==> s[0] == MINUS)
    requires n < |s| - sign && AllDigits(s[sign..][..n]) && v == Value(s[sign..][..n])
    requires overflow ==> IsDigit(s[sign..][n]) && 10 * v + (s[sign..][n] as int - 48) >= 0x1_0000_0000_0000_0000
    requires !overflow ==> !IsDigit(s[sign..][n])
    requires -ULLONG_MAX <= least && most <= ULLONG_MAX
    ensures NotPrinted(s, least, most)
  {
    var ds := s[sign..];
    if overflow && AllDigits(ds) {
      PrefixValue(ds, n);
      OutOfRange(s, sign, least, most);
    } else {
      NotShaped(s, sign, least, most);
    }
  }

  /** `string2ull` succeeds exactly on the printed integers of 64 bits without a sign. */
  method String2ull(s: seq<byte>) returns (r: Option<nat>)
    ensures r.Some? ==> r.value <= ULLONG_MAX && s == Render(r.value)
    ensures r == None ==> NotPrinted(s, 0, ULLONG_MAX)
  {
    if |s| == 0 {
      return None;
    }
    if |s| == 1 && s[0] == 48 {
      return Some(0);
    }
    if !(49 <= s[0] <= 57) {
      forall v | 0 <= v <= ULLONG_MAX ensures Render(v) != s {
        RenderShape(v);
      }
      return None;
    }
    var v, n, overflow := ParseDigits(s);
    assert s[0..] == s;
    if overflow || n < |s| {
      NoNumber(s, 0, v, n, overflow, 0, ULLONG_MAX);
      return None;
    }
    assert s[..n] == s;
    CanonicalIsDigits(s);
    return Some(v);
  }

  /** `string2ll` succeeds exactly on the printed 64-bit integers and returns the one printed. */
  method String2ll(s: seq<byte>) returns (r: Option<int>)
    ensures r.Some? ==> LLONG_MIN <= r.value <= LLONG_MAX && s == Render(r.value)
    ensures r == None ==> NotPrinted(s, LLONG_MIN, LLONG_MAX)
  {
    if |s| == 0 {
      return None;
    }
    if |s| == 1 && s[0] == 48 {
      return Some(0);
    }
    var sign: nat := 0;
    if s[0] == MINUS {
      sign := 1;
      if |s| == 1 {
        NotShaped(s, 1, LLONG_MIN, LLONG_MAX);
        return None;
      }
    }
    var ds := s[sign..];
    if !(49 <= ds[0] <= 57) {
      NotShaped(s, sign, LLONG_MIN, LLONG_MAX);
      return None;
    }
    var v, n, overflow := ParseDigits(ds);
    if overflow || n < |ds| {
      NoNumber(s, sign, v, n, overflow, LLONG_MIN, LLONG_MAX);
      return None;
    }
    assert ds[..n] == ds;
    r := Signed(s, sign, ds, v);
  }

  /** The final range test. */
  method Signed(s: seq<byte>, sign: nat, ghost ds: seq<byte>, v: nat) returns (r: Option<int>)
    requires sign <= 1 && sign < |s| && (sign == 1 <==> s[0] == MINUS)
    requires ds == s[sign..] && Canonical(ds) && ds[0] != 48 && Value(ds) == v
    ensures r.Some? ==> LLONG_MIN <= r.value <= LLONG_MAX && s == Render(r.value)
    ensures r == None ==> NotPrinted(s, LLONG_MIN, LLONG_MAX)
  {
    CanonicalIsDigits(ds);
    if sign == 1 {
      if v > 0x8000_0000_0000_0000 {
        OutOfRange(s, 1, LLONG_MIN, LLONG_MAX);
        return None;
      }
      assert s == [MINUS] + ds;
      return Some(0 - v as int);
    }
    if v > 0x7fff_ffff_ffff_ffff {
      OutOfRange(s, 0, LLONG_MIN, LLONG_MAX);
      return None;
    }
    return Some(v);
  }
}
