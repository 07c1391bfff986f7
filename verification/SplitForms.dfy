/** The ways in which an argument may be written for `StringUtil::splitArgs`, and what splitting makes of each. Bytes
    are given by their numbers here: 32 is the space, 34 the double quote, 39 the apostrophe, 92 the backslash. */
module SplitForms {
  import opened Basics
  import opened SplitArgs

  // ---------------------------------------------------------------- printable text

  /** A printable byte that is neither a double quote nor a backslash. */
  predicate Harmless(c: byte) {
    32 <= c <= 126 && c != 34 && c != 92
  }

  /** `toPrintableStr`, byte by byte: five letters and two signs behind a backslash, or two hexadecimal digits. */
  lemma EscapeIs(c: byte)
    ensures Escape(c) == [c] <==> Harmless(c)
    ensures Escape(7) == [92, 97] && Escape(8) == [92, 98] && Escape(9) == [92, 116]
    ensures Escape(10) == [92, 110] && Escape(13) == [92, 114] && Escape(34) == [92, 34] && Escape(92) == [92, 92]
    ensures Escape(0) == [92, 120, 48, 48] && Escape(175) == [92, 120, 97, 102]
    ensures !Harmless(c) ==> |Escape(c)| == if c in {7, 8, 9, 10, 13, 34, 92} then 2 else 4
  {
  }

  lemma {:induction false} PrintableGrows(s: seq<byte>)
    ensures |Printable(s)| >= |s|
  {
    if s != [] {
      PrintableGrows(s[1..]);
    }
  }

  /** Just the harmless texts are left as they are. */
  lemma {:induction false} PrintableSameIff(s: seq<byte>)
    ensures Printable(s) == s <==> forall i :: 0 <= i < |s| ==> Harmless(s[i])
  {
    if s != [] {
      var first, rest := s[0], s[1..];
      PrintableSameIff(rest);
      EscapeIs(first);
      PrintableGrows(rest);
      assert s == [first] + rest;
      if Harmless(first) {
        assert Printable(s)[1..] == Printable(rest);
        assert (forall i :: 0 <= i < |s| ==> Harmless(s[i])) <==> forall i :: 0 <= i < |rest| ==> Harmless(rest[i]) by {
          forall i | 0 < i < |s| && forall j :: 0 <= j < |rest| ==> Harmless(rest[j]) ensures Harmless(s[i]) {
            assert s[i] == rest[i - 1];
          }
        }
      } else {
        assert |Printable(s)| > |s|;
      }
    }
  }

  /** Everything that is printed is printable. */
  lemma {:induction false} PrintableIsPrintable(s: seq<byte>)
    ensures forall i :: 0 <= i < |Printable(s)| ==> 32 <= Printable(s)[i] <= 126
  {
    if s != [] {
      PrintableIsPrintable(s[1..]);
    }
  }

  // ---------------------------------------------------------------- bare words

  /** A byte that a bare word may hold: no blank, no quote and not zero. */
  predicate Wordy(c: byte) {
    c != 0 && c != 9 && c != 10 && c != 13 && c != 32 && c != 34 && c != 39
  }

  /** A bare word: vertical tabs and form feeds may not come first, since they are skipped there. */
  predicate Bare(w: seq<byte>) {
    w != [] && w[0] != 11 && w[0] != 12 && forall i :: 0 <= i < |w| ==> Wordy(w[i])
  }

  /** The bytes of a word are added as they are. */
  lemma {:induction false} ReadsWord(w: seq<byte>, t: seq<byte>, current: seq<byte>)
    requires forall i :: 0 <= i < |w| ==> Wordy(w[i])
    ensures Argument(w + t, Plain, current) == Argument(t, Plain, current + w)
    decreases |w|
  {
    if w == [] {
      assert w + t == t && current + w == current;
    } else {
      var c := w[0];
      assert Wordy(c);
      ArgumentStep(w + t, Plain, current);
      assert (w + t)[1..] == w[1..] + t;
      assert current + [c] + w[1..] == current + w;
      ReadsWord(w[1..], t, current + [c]);
    }
  }

  // ---------------------------------------------------------------- double quotes

  /** Between double quotes a byte is added as it is. */
  lemma ReadsRaw(c: byte, t: seq<byte>, current: seq<byte>)
    requires c !in {0, 34, 92}
    ensures Argument([c] + t, InDouble, current) == Argument(t, InDouble, current + [c])
  {
    ArgumentStep([c] + t, InDouble, current);
    assert ([c] + t)[1..] == t;
  }

  /** Behind a backslash five letters stand for control bytes and everything else for itself. */
  lemma ReadsSign(c: byte, t: seq<byte>, current: seq<byte>)
    requires c != 0 && !(c == 120 && IsHexDigit(Peek(t, 0)) && IsHexDigit(Peek(t, 1)))
    ensures var meant := if c == 97 then 7 else if c == 98 then 8 else if c == 116 then 9
                         else if c == 110 then 10 else if c == 114 then 13 else c;
      Argument([92, c] + t, InDouble, current) == Argument(t, InDouble, current + [meant])
  {
    var u := [92, c] + t;
    ArgumentStep(u, InDouble, current);
    assert u[2..] == t;
    assert Peek(u, 2) == Peek(t, 0) && Peek(u, 3) == Peek(t, 1);
  }

  predicate IsDigitOf(c: byte, n: nat) {
    if n < 10 then c == 48 + n else n < 16 && (c == 65 + n - 10 || c == 97 + n - 10)
  }

  /** A backslash, the letter x and two hexadecimal digits, small or capital, are one byte. */
  lemma ReadsHex(a: byte, b: byte, hi: nat, lo: nat, t: seq<byte>, current: seq<byte>)
    requires hi < 16 && lo < 16 && IsDigitOf(a, hi) && IsDigitOf(b, lo)
    ensures Argument([92, 120, a, b] + t, InDouble, current) == Argument(t, InDouble, current + [hi * 16 + lo])
  {
    var u := [92, 120, a, b] + t;
    ArgumentStep(u, InDouble, current);
    assert u[4..] == t;
    assert Next(u, InDouble) == Go(InDouble, [hi * 16 + lo], 4);
  }

  // ---------------------------------------------------------------- apostrophes

  /** Between apostrophes only an apostrophe is written otherwise, behind a backslash. */
  function OneSingly(c: byte): (s: seq<byte>)
    ensures s != [] && s[0] != 39
  {
    if c == 39 then [92, 39] else [c]
  }

  function Singly(s: seq<byte>): seq<byte> {
    if s == [] then [] else OneSingly(s[0]) + Singly(s[1..])
  }

  /** Text without apostrophes is written as it is. */
  lemma {:induction false} SinglyIs(s: seq<byte>)
    requires 39 !in s
    ensures Singly(s) == s
  {
    if s != [] {
      SinglyIs(s[1..]);
      assert s == [s[0]] + s[1..];
    }
  }

  /** What can be written between apostrophes: a backslash at the end would hide the closing one. */
  predicate Single(s: seq<byte>) {
    0 !in s && (s == [] || s[|s| - 1] != 92)
  }

  /** Right behind a byte that was written as it is there is no bare apostrophe. */
  lemma NoApostrophe(s: seq<byte>, t: seq<byte>)
    requires s != []
    ensures (Singly(s) + t)[0] != 39
  {
    assert (Singly(s) + t)[0] == OneSingly(s[0])[0];
  }

  lemma ReadsOneSingly(c: byte, u: seq<byte>, current: seq<byte>)
    requires c != 0 && (c == 92 ==> u != [] && u[0] != 39)
    ensures Argument(OneSingly(c) + u, InSingle, current) == Argument(u, InSingle, current + [c])
  {
    var one := OneSingly(c);
    ArgumentStep(one + u, InSingle, current);
    assert (one + u)[|one|..] == u;
    assert Next(one + u, InSingle) == Go(InSingle, [c], |one|);
  }

  lemma ReadsFirst(s: seq<byte>, t: seq<byte>, current: seq<byte>)
    requires Single(s) && s != []
    ensures Single(s[1..])
    ensures Argument(Singly(s) + t, InSingle, current) == Argument(Singly(s[1..]) + t, InSingle, current + [s[0]])
  {
    Regroup(OneSingly(s[0]), Singly(s[1..]), t);
    if s[1..] != [] {
      NoApostrophe(s[1..], t);
    }
    ReadsOneSingly(s[0], Singly(s[1..]) + t, current);
  }

  /** The bytes between apostrophes are added as they are. */
  lemma {:induction false} ReadsSingly(s: seq<byte>, t: seq<byte>, current: seq<byte>)
    requires Single(s)
    ensures Argument(Singly(s) + t, InSingle, current) == Argument(t, InSingle, current + s)
    decreases |s|
  {
    if s == [] {
      assert Singly(s) + t == t && current + s == current;
    } else {
      ReadsFirst(s, t, current);
      ReadsSingly(s[1..], t, current + [s[0]]);
      Regroup(current, [s[0]], s[1..]);
      assert [s[0]] + s[1..] == s;
    }
  }

  // ---------------------------------------------------------------- sections within an argument

  lemma OpensSection(q: byte, t: seq<byte>, current: seq<byte>)
    requires q == 34 || q == 39
    ensures Argument([q] + t, Plain, current) == Argument(t, if q == 34 then InDouble else InSingle, current)
  {
    ArgumentStep([q] + t, Plain, current);
    assert ([q] + t)[1..] == t && current + [] == current;
  }

  lemma ClosesSection(q: byte, t: seq<byte>, current: seq<byte>)
    requires (q == 34 || q == 39) && EndsArgument(Peek(t, 0))
    ensures Argument([q] + t, if q == 34 then InDouble else InSingle, current) == Some((current, t))
  {
    ArgumentStep([q] + t, if q == 34 then InDouble else InSingle, current);
    assert ([q] + t)[1..] == t;
  }

  /** How an argument is written: a word as it is, a section between double quotes or between apostrophes, or a word
      with such a section right behind it. */
  datatype Form = Bareword | Double(word: nat) | Apostrophes(word: nat)

  predicate Allows(form: Form, arg: seq<byte>) {
    match form
    case Bareword => Bare(arg)
    case Double(n) => n <= |arg| && (n > 0 ==> Bare(arg[..n]))
    case Apostrophes(n) => n <= |arg| && (n > 0 ==> Bare(arg[..n])) && Single(arg[n..])
  }

  function Written(arg: seq<byte>, form: Form): seq<byte>
    requires Allows(form, arg)
  {
    match form
    case Bareword => arg
    case Double(n) => arg[..n] + ([34] + (Printable(arg[n..]) + [34]))
    case Apostrophes(n) => arg[..n] + ([39] + (Singly(arg[n..]) + [39]))
  }

  /** `inner` is how a section between two quotes `q` is written. */
  predicate IsSection(q: byte, inner: seq<byte>, s: seq<byte>) {
    (q == 34 && inner == Printable(s)) || (q == 39 && Single(s) && inner == Singly(s))
  }

  lemma ReadsInner(q: byte, inner: seq<byte>, s: seq<byte>, t: seq<byte>, current: seq<byte>)
    requires IsSection(q, inner, s) && EndsArgument(Peek(t, 0))
    ensures Argument([q] + (inner + ([q] + t)), Plain, current) == Some((current + s, t))
  {
    var tail := [q] + t;
    OpensSection(q, inner + tail, current);
    if q == 34 {
      ReadsPrintable(s, tail, current);
    } else {
      ReadsSingly(s, tail, current);
    }
    ClosesSection(q, t, current + s);
  }

  lemma Enclosed(word: seq<byte>, one: seq<byte>, inner: seq<byte>, t: seq<byte>)
    ensures word + (one + (inner + one)) + t == word + (one + (inner + (one + t)))
  {
  }

  lemma ReadsSection(q: byte, inner: seq<byte>, word: seq<byte>, s: seq<byte>, t: seq<byte>, none: seq<byte>)
    requires IsSection(q, inner, s) && (word == [] || Bare(word)) && EndsArgument(Peek(t, 0)) && none == []
    ensures Argument(word + ([q] + (inner + [q])) + t, Plain, none) == Some((word + s, t))
  {
    Enclosed(word, [q], inner, t);
    ReadsWord(word, [q] + (inner + ([q] + t)), none);
    assert none + word == word;
    ReadsInner(q, inner, s, t, word);
  }

  lemma ReadsSectionOf(arg: seq<byte>, n: nat, q: byte, inner: seq<byte>, t: seq<byte>, none: seq<byte>)
    requires n <= |arg| && (n > 0 ==> Bare(arg[..n])) && IsSection(q, inner, arg[n..]) && Ends(t) && none == []
    ensures Argument(arg[..n] + ([q] + (inner + [q])) + t, Plain, none) == Some((arg, t))
  {
    ReadsSection(q, inner, arg[..n], arg[n..], t, none);
    assert arg[..n] + arg[n..] == arg;
  }

  lemma ReadsBare(w: seq<byte>, t: seq<byte>, none: seq<byte>)
    requires Bare(w) && Ends(t) && none == []
    ensures Argument(w + t, Plain, none) == Some((w, if t == [] then t else t[1..]))
  {
    ReadsWord(w, t, none);
    assert none + w == w;
    ArgumentStep(t, Plain, w);
  }

  /** Behind an argument the text ends or goes on with a blank. */
  predicate Ends(t: seq<byte>) {
    t == [] || t[0] in {9, 10, 13, 32}
  }

  lemma BlankSkipped(t: seq<byte>)
    requires t != [] && t[0] in {9, 10, 11, 12, 13, 32}
    ensures Split(t) == Split(t[1..])
  {
  }

  lemma SplitsInTwo(t: seq<byte>, arg: seq<byte>, rest: seq<byte>)
    requires t != [] && t[0] != 0 && !IsSpace(t[0]) && Argument(t, Plain, []) == Some((arg, rest))
    ensures Split(t) == if Split(rest).Some? then Some([arg] + Split(rest).value) else None
  {
    ArgumentAdvances(t);
    assert SkipBlanks(t) == t;
  }

  lemma WrittenHead(arg: seq<byte>, form: Form, t: seq<byte>)
    requires Allows(form, arg)
    ensures var u := Written(arg, form) + t; u != [] && u[0] != 0 && !IsSpace(u[0])
  {
    var first := (Written(arg, form) + t)[0];
    assert first == 34 || first == 39 || (Bare(arg) && first == arg[0]) || (form != Bareword && first == arg[0]);
    if form == Bareword {
      assert Wordy(arg[0]);
    } else if form.word > 0 {
      assert Wordy(arg[..form.word][0]);
    }
  }

  /** One argument at the front of a text is read, in any of the forms. */
  lemma ReadsWritten(arg: seq<byte>, form: Form, t: seq<byte>, none: seq<byte>) returns (rest: seq<byte>)
    requires Allows(form, arg) && Ends(t) && none == []
    ensures Argument(Written(arg, form) + t, Plain, none) == Some((arg, rest))
    ensures rest == t || (t != [] && rest == t[1..])
  {
    match form
    case Bareword =>
      ReadsBare(arg, t, none);
      rest := if t == [] then t else t[1..];
    case Double(n) =>
      ReadsSectionOf(arg, n, 34, Printable(arg[n..]), t, none);
      rest := t;
    case Apostrophes(n) =>
      ReadsSectionOf(arg, n, 39, Singly(arg[n..]), t, none);
      rest := t;
  }

  lemma SplitWritten(arg: seq<byte>, form: Form, t: seq<byte>, args: seq<seq<byte>>)
    requires Allows(form, arg) && Ends(t) && Split(t) == Some(args)
    ensures Split(Written(arg, form) + t) == Some([arg] + args)
  {
    WrittenHead(arg, form, t);
    var rest := ReadsWritten(arg, form, t, []);
    if rest != t {
      BlankSkipped(t);
    }
    SplitsInTwo(Written(arg, form) + t, arg, rest);
  }

  // ---------------------------------------------------------------- texts

  /** The blanks behind an argument: any of the six, but not a vertical tab or a form feed first. */
  predicate Gap(g: seq<byte>) {
    g != [] && g[0] in {9, 10, 13, 32} && forall i :: 0 <= i < |g| ==> g[i] in {9, 10, 11, 12, 13, 32}
  }

  datatype Piece = Piece(arg: seq<byte>, form: Form, gap: seq<byte>)

  /** Only the last argument may have no blank behind it. */
  predicate Readable(pieces: seq<Piece>) {
    pieces == [] || (Allows(pieces[0].form, pieces[0].arg) && Readable(pieces[1..])
                     && (Gap(pieces[0].gap) || (pieces[0].gap == [] && |pieces| == 1)))
  }

  function Text(pieces: seq<Piece>): seq<byte>
    requires Readable(pieces)
  {
    if pieces == [] then []
    else Written(pieces[0].arg, pieces[0].form) + (pieces[0].gap + Text(pieces[1..]))
  }

  function Args(pieces: seq<Piece>): seq<seq<byte>> {
    if pieces == [] then [] else [pieces[0].arg] + Args(pieces[1..])
  }

  lemma {:induction false} GapSkipped(g: seq<byte>, t: seq<byte>)
    requires forall i :: 0 <= i < |g| ==> g[i] in {9, 10, 11, 12, 13, 32}
    ensures Split(g + t) == Split(t)
  {
    if g == [] {
      assert g + t == t;
    } else {
      assert (g + t)[1..] == g[1..] + t;
      BlankSkipped(g + t);
      GapSkipped(g[1..], t);
    }
  }

  lemma PieceSplits(p: Piece, t: seq<byte>, args: seq<seq<byte>>)
    requires Allows(p.form, p.arg) && (Gap(p.gap) || (p.gap == [] && t == [])) && Split(t) == Some(args)
    ensures Split(Written(p.arg, p.form) + (p.gap + t)) == Some([p.arg] + args)
  {
    GapSkipped(p.gap, t);
    SplitWritten(p.arg, p.form, p.gap + t, args);
  }

  /** A text splits into its arguments, in whatever forms they are written and whatever blanks lie between. */
  lemma {:induction false} TextSplits(pieces: seq<Piece>)
    requires Readable(pieces)
    ensures Split(Text(pieces)) == Some(Args(pieces))
  {
    if pieces != [] {
      TextSplits(pieces[1..]);
      PieceSplits(pieces[0], Text(pieces[1..]), Args(pieces[1..]));
    }
  }
}
