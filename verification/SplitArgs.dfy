/** `StringUtil::splitArgs` and `StringUtil::toPrintableStr`: quoting every argument and joining the quoted
    ones with spaces is undone by splitting, for all lists of byte strings.

    Text is a list of bytes; reading at its end yields the terminating zero byte. */
module SplitArgs {
  import opened Basics

  const BELL: byte := 7
  const BACKSPACE: byte := 8
  const TAB: byte := 9
  const NEWLINE: byte := 10
  const RETURN: byte := 13
  const SPACE: byte := 32
  const QUOTE: byte := 34
  const APOSTROPHE: byte := 39
  const BACKSLASH: byte := 92

  // ---------------------------------------------------------------- characters

  predicate IsSpace(c: byte) {
    c == SPACE || 9 <= c <= 13
  }

  predicate IsPrint(c: byte) {
    32 <= c <= 126
  }

  predicate IsHexDigit(c: byte) {
    48 <= c <= 57 || 97 <= c <= 102 || 65 <= c <= 70
  }

  function HexValue(c: byte): (n: nat)
    ensures n < 16
  {
    if 48 <= c <= 57 then c as int - 48
    else if 97 <= c <= 102 then c as int - 87
    else if 65 <= c <= 70 then c as int - 55
    else 0
  }

  function HexDigit(n: nat): (c: byte)
    requires n < 16
    ensures IsHexDigit(c) && HexValue(c) == n
  {
    if n < 10 then 48 + n else 87 + n
  }

  // ---------------------------------------------------------------- printing

  /** `toPrintableStr` for one byte. */
  function Escape(c: byte): (s: seq<byte>) {
    if c == QUOTE || c == BACKSLASH then [BACKSLASH, c]
    else if c == NEWLINE then [BACKSLASH, 110]
    else if c == RETURN then [BACKSLASH, 114]
    else if c == TAB then [BACKSLASH, 116]
    else if c == BELL then [BACKSLASH, 97]
    else if c == BACKSPACE then [BACKSLASH, 98]
    else if IsPrint(c) then [c]
    else [BACKSLASH, 120, HexDigit(c / 16), HexDigit(c % 16)]
  }

  function Printable(s: seq<byte>): seq<byte> {
    if s == [] then [] else Escape(s[0]) + Printable(s[1..])
  }

  lemma {:induction false} PrintableAppend(s: seq<byte>, t: seq<byte>)
    ensures Printable(s + t) == Printable(s) + Printable(t)
  {
    if s == [] {
      assert s + t == t;
    } else {
      assert (s + t)[1..] == s[1..] + t;
      PrintableAppend(s[1..], t);
    }
  }

  lemma PrintableNext(s: seq<byte>, i: nat)
    requires i < |s|
    ensures Printable(s[..i + 1]) == Printable(s[..i]) + Escape(s[i])
  {
    assert s[..i + 1] == s[..i] + [s[i]];
    PrintableAppend(s[..i], [s[i]]);
    assert [s[i]][1..] == [];
  }

  lemma Regroup(a: seq<byte>, b: seq<byte>, c: seq<byte>)
    ensures a + b + c == a + (b + c)
  {
  }

  /** `toPrintableStr` */
  method ToPrintableStr(out: seq<byte>, s: seq<byte>) returns (out': seq<byte>)
    ensures out' == out + Printable(s)
  {
    out' := out;
    var i := 0;
    assert s[..0] == [];
    while i < |s|
      invariant 0 <= i <= |s| && out' == out + Printable(s[..i])
    {
      PrintableNext(s, i);
      Regroup(out, Printable(s[..i]), Escape(s[i]));
      out' := out' + Escape(s[i]);
      i := i + 1;
    }
    assert s[..i] == s;
  }

  function Quoted(s: seq<byte>): seq<byte> {
    [QUOTE] + Printable(s) + [QUOTE]
  }

  /** The quoted arguments, joined with spaces. */
  function Joined(args: seq<seq<byte>>): seq<byte> {
    if args == [] then []
    else if |args| == 1 then Quoted(args[0])
    else Quoted(args[0]) + [SPACE] + Joined(args[1..])
  }

  // ---------------------------------------------------------------- splitting

  /** Where the scanner is in an argument. */
  datatype Mode = Plain | InDouble | InSingle

  /** The byte `i` places ahead; behind the end, the terminating zero. */
  function Peek(t: seq<byte>, i: nat): byte {
    if i < |t| then t[i] else 0
  }

  /** One round of the scanner: an error, the end of the argument, or a mode, more bytes of the argument
      and how many bytes of text they took. */
  datatype Move = Fail | Stop | Go(mode: Mode, more: seq<byte>, used: nat)

  function Unescaped(c: byte): byte {
    if c == 110 then NEWLINE else if c == 114 then RETURN else if c == 116 then TAB
    else if c == 98 then BACKSPACE else if c == 97 then BELL else c
  }

  predicate EndsArgument(c: byte) {
    c == 0 || IsSpace(c)
  }

  function Next(t: seq<byte>, mode: Mode): (m: Move)
    ensures m.Go? ==> 0 < m.used <= |t|
    ensures m.Stop? && mode != Plain ==> t != []
  {
    match mode
    case InDouble =>
      if Peek(t, 0) == BACKSLASH && Peek(t, 1) == 120 && IsHexDigit(Peek(t, 2)) && IsHexDigit(Peek(t, 3)) then
        Go(InDouble, [HexValue(t[2]) * 16 + HexValue(t[3])], 4)
      else if Peek(t, 0) == BACKSLASH && Peek(t, 1) != 0 then Go(InDouble, [Unescaped(t[1])], 2)
      else if Peek(t, 0) == QUOTE then if EndsArgument(Peek(t, 1)) then Stop else Fail
      else if Peek(t, 0) == 0 then Fail
      else Go(InDouble, [t[0]], 1)
    case InSingle =>
      if Peek(t, 0) == BACKSLASH && Peek(t, 1) == APOSTROPHE then Go(InSingle, [APOSTROPHE], 2)
      else if Peek(t, 0) == APOSTROPHE then if EndsArgument(Peek(t, 1)) then Stop else Fail
      else if Peek(t, 0) == 0 then Fail
      else Go(InSingle, [t[0]], 1)
    case Plain =>
      if Peek(t, 0) in [SPACE, NEWLINE, RETURN, TAB, 0] then Stop
      else if Peek(t, 0) == QUOTE then Go(InDouble, [], 1)
      else if Peek(t, 0) == APOSTROPHE then Go(InSingle, [], 1)
      else Go(Plain, [t[0]], 1)
  }

  /** The argument that begins with `current`, and the text behind it. */
  function Argument(t: seq<byte>, mode: Mode, current: seq<byte>): (r: Option<(seq<byte>, seq<byte>)>)
    ensures r.Some? ==> |r.value.1| <= |t|
    decreases |t|
  {
    match Next(t, mode)
    case Fail => None
    case Stop => Some((current, if Peek(t, 0) == 0 then t else t[1..]))
    case Go(mode', more, used) => Argument(t[used..], mode', current + more)
  }

  function SkipBlanks(t: seq<byte>): (r: seq<byte>)
    ensures |r| <= |t| && (r == [] || !IsSpace(r[0]))
  {
    if t == [] || !IsSpace(t[0]) then t else SkipBlanks(t[1..])
  }

  /** The arguments of a text, or nothing when its quotes are not balanced. */
  function Split(t: seq<byte>): Option<seq<seq<byte>>>
    decreases |t|
  {
    var u := SkipBlanks(t);
    if Peek(u, 0) == 0 then Some([])
    else
      ArgumentAdvances(u);
      match Argument(u, Plain, [])
      case None => None
      case Some((arg, rest)) =>
        match Split(rest)
        case None => None
        case Some(args) => Some([arg] + args)
  }

  /** An argument takes at least one byte. */
  lemma ArgumentAdvances(t: seq<byte>)
    requires t != [] && t[0] != 0
    ensures var r := Argument(t, Plain, []); r.Some? ==> |r.value.1| < |t|
  {
  }

  lemma ArgumentStep(t: seq<byte>, mode: Mode, current: seq<byte>)
    ensures var m := Next(t, mode); var r := Argument(t, mode, current);
      && (m.Fail? ==> r == None)
      && (m.Stop? ==> r == Some((current, if Peek(t, 0) == 0 then t else t[1..])))
      && (m.Go? ==> r == Argument(t[m.used..], m.mode, current + m.more))
  {
  }

  // ---------------------------------------------------------------- round trip

  /** Reading back one printed byte inside double quotes. */
  lemma ReadsEscape(c: byte, t: seq<byte>, current: seq<byte>)
    ensures Argument(Escape(c) + t, InDouble, current) == Argument(t, InDouble, current + [c])
  {
    var u := Escape(c) + t;
    assert u[|Escape(c)|..] == t;
    assert Next(u, InDouble) == Go(InDouble, [c], |Escape(c)|);
  }

  lemma {:induction false} ReadsPrintable(s: seq<byte>, t: seq<byte>, current: seq<byte>)
    ensures Argument(Printable(s) + t, InDouble, current) == Argument(t, InDouble, current + s)
    decreases |s|
  {
    if s == [] {
      assert Printable(s) + t == t && current + s == current;
    } else {
      Regroup(Escape(s[0]), Printable(s[1..]), t);
      Regroup(current, [s[0]], s[1..]);
      assert [s[0]] + s[1..] == s;
      ReadsEscape(s[0], Printable(s[1..]) + t, current);
      ReadsPrintable(s[1..], t, current + [s[0]]);
    }
  }

  lemma OpensQuote(t: seq<byte>, none: seq<byte>)
    requires none == []
    ensures Argument([QUOTE] + t, Plain, none) == Argument(t, InDouble, none)
  {
    ArgumentStep([QUOTE] + t, Plain, none);
    assert ([QUOTE] + t)[1..] == t && none + none == none;
  }

  lemma ClosesQuote(t: seq<byte>, current: seq<byte>)
    requires EndsArgument(Peek(t, 0))
    ensures Argument([QUOTE] + t, InDouble, current) == Some((current, t))
  {
    ArgumentStep([QUOTE] + t, InDouble, current);
    assert ([QUOTE] + t)[1..] == t;
  }

  lemma ReadsQuoted(s: seq<byte>, t: seq<byte>)
    requires EndsArgument(Peek(t, 0))
    ensures Argument(Quoted(s) + t, Plain, []) == Some((s, t))
  {
    var none: seq<byte> := [];
    var inner := Printable(s) + ([QUOTE] + t);
    assert Quoted(s) + t == [QUOTE] + inner;
    OpensQuote(inner, none);
    ReadsPrintable(s, [QUOTE] + t, none);
    ClosesQuote(t, none + s);
    assert none + s == s;
  }

  lemma SplitQuoted(arg: seq<byte>, rest: seq<byte>, args: seq<seq<byte>>)
    requires EndsArgument(Peek(rest, 0)) && Split(rest) == Some(args)
    ensures Split(Quoted(arg) + rest) == Some([arg] + args)
  {
    ReadsQuoted(arg, rest);
    assert SkipBlanks(Quoted(arg) + rest) == Quoted(arg) + rest;
  }

  lemma SplitBlank(t: seq<byte>)
    ensures Split([SPACE] + t) == Split(t)
  {
    assert ([SPACE] + t)[1..] == t;
  }

  lemma JoinedHead(args: seq<seq<byte>>)
    requires args != []
    ensures Joined(args) == Quoted(args[0]) + Behind(args[1..])
  {
    if |args| == 1 {
      assert Quoted(args[0]) + [] == Quoted(args[0]);
    } else {
      Regroup(Quoted(args[0]), [SPACE], Joined(args[1..]));
    }
  }

  function Behind(args: seq<seq<byte>>): seq<byte> {
    if args == [] then [] else [SPACE] + Joined(args)
  }

  lemma BehindSplits(args: seq<seq<byte>>)
    requires Split(Joined(args)) == Some(args)
    ensures Split(Behind(args)) == Some(args) && EndsArgument(Peek(Behind(args), 0))
  {
    SplitBlank(Joined(args));
  }

  /** Splitting undoes quoting and joining. */
  lemma {:induction false} RoundTrip(args: seq<seq<byte>>)
    ensures Split(Joined(args)) == Some(args)
    decreases |args|
  {
    if args != [] {
      RoundTrip(args[1..]);
      BehindSplits(args[1..]);
      JoinedHead(args);
      SplitQuoted(args[0], Behind(args[1..]), args[1..]);
      assert [args[0]] + args[1..] == args;
    }
  }
}
