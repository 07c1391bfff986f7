/** `StringUtil::splitArgs`: its scanner, with one position in the text and one flag for each kind of quote. */
module SplitScanner {
  import opened Basics
  import opened SplitArgs
  import opened SplitBalance

  function ModeOf(inq: bool, insq: bool): Mode {
    if inq then InDouble else if insq then InSingle else Plain
  }

  /** The byte at `p`, or the terminating zero. */
  function At(s: seq<byte>, p: nat): byte {
    if p < |s| then s[p] else 0
  }

  lemma AtIsPeek(s: seq<byte>, p: nat)
    requires p <= |s|
    ensures forall i: nat :: At(s, p + i) == Peek(s[p..], i)
  {
  }

  /** One round of the inner loop. */
  method Round(s: seq<byte>, p: nat, inq: bool, insq: bool, current: seq<byte>)
    returns (err: bool, done: bool, p': nat, inq': bool, insq': bool, current': seq<byte>)
    requires p <= |s| && !(inq && insq)
    ensures !(inq' && insq') && p <= p' <= |s|
    ensures match Next(s[p..], ModeOf(inq, insq))
      case Fail => err
      case Stop => !err && done && current' == current && p' == (if At(s, p) == 0 then p else p + 1)
      case Go(mode, more, used) =>
        !err && !done && current' == current + more && p' == p + used && ModeOf(inq', insq') == mode
  {
    AtIsPeek(s, p);
    assert At(s, p) == At(s, p + 0);
    err, done, p', inq', insq', current' := false, false, p, inq, insq, current;
    if inq {
      if At(s, p) == BACKSLASH && At(s, p + 1) == 120 && IsHexDigit(At(s, p + 2)) && IsHexDigit(At(s, p + 3)) {
        current' := current + [HexValue(s[p + 2]) * 16 + HexValue(s[p + 3])];
        p' := p + 3;
      } else if At(s, p) == BACKSLASH && At(s, p + 1) != 0 {
        p' := p + 1;
        current' := current + [Unescaped(s[p + 1])];
      } else if At(s, p) == QUOTE {
        if At(s, p + 1) != 0 && !IsSpace(At(s, p + 1)) {
          err := true;
          return;
        }
        done := true;
      } else if At(s, p) == 0 {
        err := true;
        return;
      } else {
        current' := current + [s[p]];
      }
    } else if insq {
      if At(s, p) == BACKSLASH && At(s, p + 1) == APOSTROPHE {
        p' := p + 1;
        current' := current + [APOSTROPHE];
      } else if At(s, p) == APOSTROPHE {
        if At(s, p + 1) != 0 && !IsSpace(At(s, p + 1)) {
          err := true;
          return;
        }
        done := true;
      } else if At(s, p) == 0 {
        err := true;
        return;
      } else {
        current' := current + [s[p]];
      }
    } else {
      if At(s, p) in [SPACE, NEWLINE, RETURN, TAB, 0] {
        done := true;
      } else if At(s, p) == QUOTE {
        inq' := true;
        assert current + [] == current;
      } else if At(s, p) == APOSTROPHE {
        insq' := true;
        assert current + [] == current;
      } else {
        current' := current + [s[p]];
      }
    }
    if At(s, p') != 0 {
      p' := p' + 1;
    }
  }

  lemma BehindStop(s: seq<byte>, p: nat)
    requires p <= |s|
    ensures At(s, p) == Peek(s[p..], 0)
    ensures At(s, p) != 0 ==> s[p..][1..] == s[p + 1..]
  {
  }

  /** One round, seen from what the argument will be. */
  method Step(s: seq<byte>, p: nat, inq: bool, insq: bool, current: seq<byte>,
              ghost read: Option<(seq<byte>, seq<byte>)>)
    returns (err: bool, done: bool, p': nat, inq': bool, insq': bool, current': seq<byte>)
    requires p <= |s| && !(inq && insq) && Argument(s[p..], ModeOf(inq, insq), current) == read
    ensures !(inq' && insq') && p <= p' <= |s| && (!err && !done ==> p < p')
    ensures err ==> read == None
    ensures !err && done ==> read == Some((current', s[p'..]))
    ensures !err && !done ==> Argument(s[p'..], ModeOf(inq', insq'), current') == read
  {
    ArgumentStep(s[p..], ModeOf(inq, insq), current);
    BehindStop(s, p);
    err, done, p', inq', insq', current' := Round(s, p, inq, insq, current);
    assert s[p..][p' - p..] == s[p'..];
  }

  /** The inner loop: one argument. */
  method Scan(s: seq<byte>, start: nat) returns (err: bool, current: seq<byte>, p: nat)
    requires start < |s| && s[start] != 0
    ensures p <= |s| && (!err ==> start < p)
    ensures Argument(s[start..], Plain, []) == if err then None else Some((current, s[p..]))
  {
    ghost var read := Argument(s[start..], Plain, []);
    ArgumentAdvances(s[start..]);
    var done, inq, insq := false, false, false;
    err, current, p := false, [], start;
    while !done
      invariant start <= p <= |s| && !(inq && insq) && !err
      invariant !done ==> Argument(s[p..], ModeOf(inq, insq), current) == read
      invariant done ==> read == Some((current, s[p..]))
      decreases !done, |s| - p
    {
      err, done, p, inq, insq, current := Step(s, p, inq, insq, current, read);
      if err {
        return;
      }
    }
  }

  /** Arguments already found, before those of the rest. */
  function Before(args: seq<seq<byte>>, rest: Option<seq<seq<byte>>>): Option<seq<seq<byte>>> {
    if rest.None? then None else Some(args + rest.value)
  }

  lemma BlankSkipped(s: seq<byte>, p: nat)
    requires p < |s| && IsSpace(s[p])
    ensures SkipBlanks(s[p..]) == SkipBlanks(s[p + 1..])
  {
    assert s[p..][1..] == s[p + 1..];
  }

  lemma SplitBySkipped(t: seq<byte>, u: seq<byte>)
    requires SkipBlanks(t) == SkipBlanks(u)
    ensures Split(t) == Split(u)
  {
  }

  lemma NoneBefore(s: seq<byte>, none: seq<seq<byte>>)
    requires none == []
    ensures Before(none, Split(s[0..])) == Split(s)
  {
    assert s[0..] == s;
    assert Split(s).Some? ==> none + Split(s).value == Split(s).value;
  }

  lemma NoneBehind(t: seq<byte>, args: seq<seq<byte>>)
    requires Peek(t, 0) == 0
    ensures Before(args, Split(t)) == Some(args)
  {
    assert args + [] == args;
  }

  /** `splitArgs` on the bytes of `s`, behind which a zero byte lies. It refuses exactly the texts with a
      quoted section that is not closed or goes on behind its closing quote. */
  method SplitInto(s: seq<byte>) returns (ok: bool, args: seq<seq<byte>>)
    ensures Split(s) == if ok then Some(args) else None
    ensures ok <==> Balanced(s)
    ensures !ok ==> args == []
  {
    SplitsIff(s);
    var p := 0;
    args := [];
    ghost var all := Split(s);
    NoneBefore(s, args);
    while true
      invariant 0 <= p <= |s| && Before(args, Split(s[p..])) == all
      decreases |s| - p
    {
      p := SkipFrom(s, p);
      if !(p < |s| && s[p] != 0) {
        NoneBehind(s[p..], args);
        return true, args;
      }
      var err, current, p' := Scan(s, p);
      if err {
        return false, [];
      }
      AddArgument(args, s[p..], current, s[p'..]);
      p := p';
      args := args + [current];
    }
  }

  lemma AddArgument(args: seq<seq<byte>>, t: seq<byte>, current: seq<byte>, rest: seq<byte>)
    requires t != [] && t[0] != 0 && !IsSpace(t[0]) && Argument(t, Plain, []) == Some((current, rest))
    ensures Before(args, Split(t)) == Before(args + [current], Split(rest))
  {
    if Split(rest).Some? {
      assert args + ([current] + Split(rest).value) == args + [current] + Split(rest).value;
    }
  }

  method SkipFrom(s: seq<byte>, start: nat) returns (p: nat)
    requires start <= |s|
    ensures start <= p <= |s| && (p == |s| || !IsSpace(s[p])) && Split(s[p..]) == Split(s[start..])
  {
    p := start;
    while p < |s| && s[p] != 0 && IsSpace(s[p])
      invariant start <= p <= |s| && SkipBlanks(s[p..]) == SkipBlanks(s[start..])
    {
      BlankSkipped(s, p);
      p := p + 1;
    }
    SplitBySkipped(s[p..], s[start..]);
  }
}
