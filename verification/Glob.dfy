/** `matchLen`: glob matching with `*`, `?`, character classes and escapes.

    The meaning of a pattern is given without any search. A pattern is a list of tokens, and it
    matches when the subject can be cut into consecutive pieces, one per token: any piece for a
    star, a single accepted character for every other token. */
module Glob {

  // A `char` of the source, signed or unsigned.
  type Char = c: int | -128 <= c < 256

  const STAR: Char := 42
  const QUESTION: Char := 63
  const OPEN: Char := 91
  const CLOSE: Char := 93
  const BACKSLASH: Char := 92
  const CARET: Char := 94
  const DASH: Char := 45

  function ToLower(c: Char): Char {
    if 65 <= c <= 90 then c + 32 else c
  }

  // ---------------------------------------------------------------- tokens

  /** One entry of a character class. An escaped character is compared exactly even when the
      match ignores case. */
  datatype Item = Escaped(c: Char) | Plain(c: Char) | Range(from: Char, to: Char)

  datatype Token = Star | Any | Literal(c: Char) | Class(negated: bool, items: seq<Item>)

  /** The ends of a range are put in order first and lowered afterwards. */
  predicate ItemAccepts(item: Item, x: Char, nocase: bool) {
    match item
    case Escaped(c) => c == x
    case Plain(c) => if nocase then ToLower(c) == ToLower(x) else c == x
    case Range(a, b) =>
      var lo, hi := if a <= b then a else b, if a <= b then b else a;
      if nocase then ToLower(lo) <= ToLower(x) <= ToLower(hi) else lo <= x <= hi
  }

  predicate SomeItemAccepts(items: seq<Item>, x: Char, nocase: bool) {
    exists i :: 0 <= i < |items| && ItemAccepts(items[i], x, nocase)
  }

  predicate Accepts(t: Token, x: Char, nocase: bool)
    requires !t.Star?
  {
    match t
    case Any => true
    case Literal(c) => if nocase then ToLower(c) == ToLower(x) else c == x
    case Class(negated, items) => SomeItemAccepts(items, x, nocase) != negated
  }

  /** The pattern byte at `i`; the byte after the pattern is NUL. */
  function At(pat: seq<Char>, i: nat): Char
    requires i <= |pat|
  {
    if i < |pat| then pat[i] else 0
  }

  /** The entries of a class from `p` on, and the position after the class. A class that
      is never closed ends with the pattern. */
  function ParseItems(pat: seq<Char>, p: nat): (r: (seq<Item>, nat))
    requires p <= |pat|
    ensures p <= r.1 <= |pat|
    decreases |pat| - p
  {
    if p == |pat| then ([], p)
    else if pat[p] == BACKSLASH && p + 2 <= |pat| then
      var r := ParseItems(pat, p + 2);
      ([Escaped(pat[p + 1])] + r.0, r.1)
    else if pat[p] == CLOSE then ([], p + 1)
    else if p + 3 <= |pat| && pat[p + 1] == DASH then
      var r := ParseItems(pat, p + 3);
      ([Range(pat[p], pat[p + 2])] + r.0, r.1)
    else
      var r := ParseItems(pat, p + 1);
      ([Plain(pat[p])] + r.0, r.1)
  }

  function ParseToken(pat: seq<Char>, p: nat): (r: (Token, nat))
    requires p < |pat|
    ensures p < r.1 <= |pat|
  {
    if pat[p] == STAR then (Star, p + 1)
    else if pat[p] == QUESTION then (Any, p + 1)
    else if pat[p] == OPEN then
      var negated := At(pat, p + 1) == CARET;
      var r := ParseItems(pat, if negated then p + 2 else p + 1);
      (Class(negated, r.0), r.1)
    else if pat[p] == BACKSLASH && p + 2 <= |pat| then (Literal(pat[p + 1]), p + 2)
    else (Literal(pat[p]), p + 1)
  }

  function Tokens(pat: seq<Char>, p: nat): seq<Token>
    requires p <= |pat|
    decreases |pat| - p
  {
    if p == |pat| then []
    else
      var r := ParseToken(pat, p);
      [r.0] + Tokens(pat, r.1)
  }

  /** The tokens of the pattern "a*[^b-d\\]x]?\\*[y". */
  lemma Example(pat: seq<Char>)
    requires pat == [97, 42, 91, 94, 98, 45, 100, 92, 93, 120, 93, 63, 92, 42, 91, 121]
    ensures Tokens(pat, 0) == [Literal(97), Star, Class(true, [Range(98, 100), Escaped(93), Plain(120)]), Any,
                               Literal(42), Class(false, [Plain(121)])]
  {
    var x, y, none: seq<Item> := Plain(120), Plain(121), [];
    assert ParseItems(pat, 10) == (none, 11) && ParseItems(pat, 16) == (none, 16);
    assert [x] + none == [x] && [y] + none == [y];
    assert ParseItems(pat, 9) == ([x], 11) && ParseItems(pat, 15) == ([y], 16);
    assert [Escaped(93)] + [x] == [Escaped(93), x];
    assert ParseItems(pat, 7) == ([Escaped(93), x], 11);
    assert [Range(98, 100)] + [Escaped(93), x] == [Range(98, 100), Escaped(93), x];
    assert ParseItems(pat, 4) == ([Range(98, 100), Escaped(93), x], 11);
    assert Tokens(pat, 16) == [] && [Class(false, [y])] + Tokens(pat, 16) == [Class(false, [y])];
    assert Tokens(pat, 14) == [Class(false, [y])];
    assert Tokens(pat, 12) == [Literal(42), Class(false, [y])];
    assert Tokens(pat, 11) == [Any, Literal(42), Class(false, [y])];
    assert Tokens(pat, 2) == [Class(true, [Range(98, 100), Escaped(93), x]), Any, Literal(42), Class(false, [y])];
  }

  // ---------------------------------------------------------------- meaning

  ghost predicate Piece(t: Token, str: seq<Char>, a: nat, b: nat, nocase: bool) {
    if t.Star? then a <= b <= |str|
    else b == a + 1 <= |str| && Accepts(t, str[a], nocase)
  }

  ghost predicate Cuts(ts: seq<Token>, str: seq<Char>, i: nat, cut: seq<nat>, nocase: bool) {
    && |cut| == |ts| + 1 && cut[0] == i && cut[|ts|] == |str|
    && forall n :: 0 <= n < |ts| ==> Piece(ts[n], str, cut[n], cut[n + 1], nocase)
  }

  /** The tokens cover the subject from position `i` to its end. */
  ghost predicate Covers(ts: seq<Token>, str: seq<Char>, i: nat, nocase: bool) {
    exists cut: seq<nat> :: Cuts(ts, str, i, cut, nocase)
  }

  ghost predicate Matches(pat: seq<Char>, str: seq<Char>, nocase: bool) {
    Covers(Tokens(pat, 0), str, 0, nocase)
  }

  lemma CoversNothing(str: seq<Char>, i: nat, nocase: bool)
    ensures Covers([], str, i, nocase) <==> i == |str|
  {
    if i == |str| {
      assert Cuts([], str, i, [i], nocase);
    }
  }

  lemma CoversPrepend(t: Token, ts: seq<Token>, str: seq<Char>, i: nat, j: nat, nocase: bool)
    requires Piece(t, str, i, j, nocase) && Covers(ts, str, j, nocase)
    ensures Covers([t] + ts, str, i, nocase)
  {
    var cut: seq<nat> :| Cuts(ts, str, j, cut, nocase);
    var cut' := [i] + cut;
    forall n | 0 <= n < |[t] + ts| ensures Piece(([t] + ts)[n], str, cut'[n], cut'[n + 1], nocase) {
      if n > 0 {
        assert Piece(ts[n - 1], str, cut[n - 1], cut[n], nocase);
      }
    }
    assert Cuts([t] + ts, str, i, cut', nocase);
  }

  lemma CoversSplit(t: Token, ts: seq<Token>, str: seq<Char>, i: nat, nocase: bool) returns (j: nat)
    requires Covers([t] + ts, str, i, nocase)
    ensures Piece(t, str, i, j, nocase) && Covers(ts, str, j, nocase)
  {
    var cut: seq<nat> :| Cuts([t] + ts, str, i, cut, nocase);
    j := cut[1];
    assert ([t] + ts)[0] == t && Piece(([t] + ts)[0], str, cut[0], cut[1], nocase);
    var cut' := cut[1..];
    forall n | 0 <= n < |ts| ensures Piece(ts[n], str, cut'[n], cut'[n + 1], nocase) {
      assert Piece(([t] + ts)[n + 1], str, cut[n + 1], cut[n + 2], nocase);
    }
    assert Cuts(ts, str, j, cut', nocase);
  }

  /** Every token but a star consumes exactly one character. */
  lemma CoversStep(t: Token, ts: seq<Token>, str: seq<Char>, i: nat, nocase: bool)
    requires !t.Star?
    ensures Covers([t] + ts, str, i, nocase)
      <==> i < |str| && Accepts(t, str[i], nocase) && Covers(ts, str, i + 1, nocase)
  {
    if Covers([t] + ts, str, i, nocase) {
      var j := CoversSplit(t, ts, str, i, nocase);
    }
    if i < |str| && Accepts(t, str[i], nocase) && Covers(ts, str, i + 1, nocase) {
      CoversPrepend(t, ts, str, i, i + 1, nocase);
    }
  }

  lemma CoversStar(ts: seq<Token>, str: seq<Char>, i: nat, nocase: bool)
    ensures Covers([Star] + ts, str, i, nocase)
      <==> exists k :: i <= k <= |str| && Covers(ts, str, k, nocase)
  {
    if Covers([Star] + ts, str, i, nocase) {
      var j := CoversSplit(Star, ts, str, i, nocase);
    }
    if k :| i <= k <= |str| && Covers(ts, str, k, nocase) {
      CoversPrepend(Star, ts, str, i, k, nocase);
    }
  }

  /** Adjacent stars mean one star. */
  lemma CoversStarStar(ts: seq<Token>, str: seq<Char>, i: nat, nocase: bool)
    ensures Covers([Star] + ([Star] + ts), str, i, nocase) <==> Covers([Star] + ts, str, i, nocase)
  {
    CoversStar([Star] + ts, str, i, nocase);
    CoversStar(ts, str, i, nocase);
    if k :| i <= k <= |str| && Covers([Star] + ts, str, k, nocase) {
      CoversStar(ts, str, k, nocase);
    }
    if Covers([Star] + ts, str, i, nocase) {
      var k :| i <= k <= |str| && Covers(ts, str, k, nocase);
      CoversStar(ts, str, k, nocase);
      assert i <= k <= |str| && Covers([Star] + ts, str, k, nocase);
    }
  }

  /** Nothing is left of the subject: only stars can cover it. */
  lemma {:induction false} CoversEnd(ts: seq<Token>, str: seq<Char>, nocase: bool)
    ensures Covers(ts, str, |str|, nocase) <==> forall n :: 0 <= n < |ts| ==> ts[n].Star?
  {
    if ts == [] {
      CoversNothing(str, |str|, nocase);
    } else {
      var rest := ts[1..];
      assert ts == [ts[0]] + rest;
      CoversEnd(rest, str, nocase);
      if ts[0].Star? {
        CoversStar(rest, str, |str|, nocase);
        assert forall n :: 0 <= n < |rest| ==> rest[n] == ts[n + 1];
      } else {
        CoversStep(ts[0], rest, str, |str|, nocase);
      }
    }
  }

  // ---------------------------------------------------------------- case

  /** The same character, or the two forms of one of the letters A to Z. */
  predicate SameLetter(x: Char, y: Char) {
    x == y || (65 <= x <= 90 && y == x + 32) || (65 <= y <= 90 && x == y + 32)
  }

  /** Without regard to case, a literal and a class entry that is not escaped accept both forms of a letter, and
      an escaped entry accepts its own form alone. */
  lemma CaseOfOne(c: Char, x: Char)
    ensures Accepts(Literal(c), x, true) <==> SameLetter(c, x)
    ensures Accepts(Literal(c), x, false) <==> c == x
    ensures ItemAccepts(Plain(c), x, true) <==> SameLetter(c, x)
    ensures ItemAccepts(Plain(c), x, false) <==> c == x
    ensures forall nocase :: ItemAccepts(Escaped(c), x, nocase) <==> c == x
  {
  }

  /** A range of letters of one case accepts their other forms as well. */
  lemma CaseOfRange(a: Char, b: Char, x: Char)
    requires (65 <= a <= 90 && 65 <= b <= 90) || (97 <= a <= 122 && 97 <= b <= 122)
    ensures ItemAccepts(Range(a, b), x, true)
       <==> exists y: Char :: SameLetter(x, y) && (a <= y <= b || b <= y <= a)
  {
    if 65 <= x <= 90 {
      assert SameLetter(x, x + 32);
    } else if 97 <= x <= 122 {
      assert SameLetter(x, x - 32);
    }
    assert SameLetter(x, x);
  }

  /** In general its ends and the character are compared in their lower forms. */
  lemma RangeLowers(a: Char, b: Char, x: Char, nocase: bool)
    ensures var low := (c: int) => if nocase && 65 <= c <= 90 then c + 32 else c;
      ItemAccepts(Range(a, b), x, nocase) <==> if a <= b then low(a) <= low(x) <= low(b) else low(b) <= low(x) <= low(a)
  {
  }

  /** A class accepts both forms of every letter unless an escaped entry asks for one of them alone. */
  ghost predicate BothForms(items: seq<Item>) {
    forall i, y: Char :: 0 <= i < |items| && items[i].Escaped? && SameLetter(items[i].c, y)
      ==> SomeItemAccepts(items, y, true)
  }

  ghost predicate Blind(t: Token) {
    t.Class? ==> BothForms(t.items)
  }

  lemma ItemsForms(items: seq<Item>, x: Char, y: Char)
    requires BothForms(items) && SameLetter(x, y) && SomeItemAccepts(items, x, true)
    ensures SomeItemAccepts(items, y, true)
  {
    var i :| 0 <= i < |items| && ItemAccepts(items[i], x, true);
    if !items[i].Escaped? {
      assert ItemAccepts(items[i], y, true);
    }
  }

  lemma BlindAccepts(t: Token, x: Char, y: Char)
    requires !t.Star? && Blind(t) && SameLetter(x, y)
    ensures Accepts(t, x, true) <==> Accepts(t, y, true)
  {
    if t.Class? && SomeItemAccepts(t.items, x, true) {
      ItemsForms(t.items, x, y);
    }
    if t.Class? && SomeItemAccepts(t.items, y, true) {
      ItemsForms(t.items, y, x);
    }
  }

  /** The entry that is escaped is accepted, and its other form is not. */
  lemma SharpAccepts(t: Token) returns (x: Char, y: Char)
    requires !Blind(t)
    ensures SameLetter(x, y) && Accepts(t, x, true) && !Accepts(t, y, true)
  {
    var i, z: Char :| 0 <= i < |t.items| && t.items[i].Escaped? && SameLetter(t.items[i].c, z)
                  && !SomeItemAccepts(t.items, z, true);
    assert ItemAccepts(t.items[i], t.items[i].c, true);
    x, y := if t.negated then z else t.items[i].c, if t.negated then t.items[i].c else z;
  }

  /** The two texts differ in the case of letters at most. */
  ghost predicate SameText(s: seq<Char>, t: seq<Char>) {
    |s| == |t| && forall k :: 0 <= k < |s| ==> SameLetter(s[k], t[k])
  }

  lemma BlindCovers(ts: seq<Token>, s: seq<Char>, t: seq<Char>, i: nat)
    requires SameText(s, t) && (forall n :: 0 <= n < |ts| ==> Blind(ts[n])) && Covers(ts, s, i, true)
    ensures Covers(ts, t, i, true)
  {
    var cut: seq<nat> :| Cuts(ts, s, i, cut, true);
    forall n | 0 <= n < |ts| ensures Piece(ts[n], t, cut[n], cut[n + 1], true) {
      assert Piece(ts[n], s, cut[n], cut[n + 1], true);
      if !ts[n].Star? {
        BlindAccepts(ts[n], s[cut[n]], t[cut[n]]);
      }
    }
    assert Cuts(ts, t, i, cut, true);
  }

  /** A token that no character satisfies: a class without entries, or one that excludes everything. */
  ghost predicate Dead(t: Token) {
    !t.Star? && forall x: Char :: !Accepts(t, x, true)
  }

  lemma DeadPiece(t: Token, s: seq<Char>, a: nat, b: nat)
    requires Dead(t)
    ensures !Piece(t, s, a, b, true)
  {
  }

  lemma DeadCovers(ts: seq<Token>, n: nat, s: seq<Char>, i: nat)
    requires n < |ts| && Dead(ts[n])
    ensures !Covers(ts, s, i, true)
  {
    forall cut: seq<nat> ensures !Cuts(ts, s, i, cut, true) {
      if |cut| == |ts| + 1 {
        DeadPiece(ts[n], s, cut[n], cut[n + 1]);
      }
    }
  }

  /** The number of tokens that take one character. */
  function Singles(ts: seq<Token>): (n: nat)
    ensures n <= |ts|
  {
    if ts == [] then 0 else (if ts[0].Star? then 0 else 1) + Singles(ts[1..])
  }

  /** A text on which every star takes nothing: then each other token has its own character, whichever way the
      text is cut. */
  lemma {:induction false} TightCovers(ts: seq<Token>, s: seq<Char>, i: nat)
    requires i <= |s|
    ensures Covers(ts, s, i, true) ==> i + Singles(ts) <= |s|
    ensures ts != [] && |s| == i + Singles(ts) ==>
      (Covers(ts, s, i, true) <==>
        if ts[0].Star? then Covers(ts[1..], s, i, true)
        else Accepts(ts[0], s[i], true) && Covers(ts[1..], s, i + 1, true))
    decreases |ts|
  {
    if ts == [] {
      CoversNothing(s, i, true);
    } else {
      assert ts == [ts[0]] + ts[1..];
      if ts[0].Star? {
        CoversStar(ts[1..], s, i, true);
        forall k | i <= k <= |s| && Covers(ts[1..], s, k, true)
          ensures k + Singles(ts[1..]) <= |s|
        {
          TightCovers(ts[1..], s, k);
        }
      } else {
        CoversStep(ts[0], ts[1..], s, i, true);
        if i < |s| {
          TightCovers(ts[1..], s, i + 1);
        }
      }
    }
  }

  /** A text, one character for every token but the stars, that the tokens cover. */
  lemma {:induction false} SomeText(ts: seq<Token>, before: seq<Char>) returns (s: seq<Char>)
    requires forall n :: 0 <= n < |ts| ==> !Dead(ts[n])
    ensures |s| == |before| + Singles(ts) && s[..|before|] == before && Covers(ts, s, |before|, true)
    decreases |ts|
  {
    if ts == [] {
      s := before;
      CoversNothing(s, |before|, true);
    } else if ts[0].Star? {
      s := SomeText(ts[1..], before);
      TightCovers(ts, s, |before|);
    } else {
      assert !Dead(ts[0]);
      var x: Char :| Accepts(ts[0], x, true);
      s := SomeText(ts[1..], before + [x]);
      assert s[..|before|] == s[..|before| + 1][..|before|] == before;
      assert s[|before|] == s[..|before| + 1][|before|] == x;
      TightCovers(ts, s, |before|);
    }
  }

  /** Two texts that differ in case alone, one of which is covered and the other is not. */
  lemma {:induction false} SharpTexts(ts: seq<Token>, n: nat, before: seq<Char>) returns (s: seq<Char>, t: seq<Char>)
    requires (forall k :: 0 <= k < |ts| ==> !Dead(ts[k])) && n < |ts| && !Blind(ts[n])
    ensures |s| == |before| + Singles(ts) && SameText(s, t) && s[..|before|] == before == t[..|before|]
    ensures Covers(ts, s, |before|, true) && !Covers(ts, t, |before|, true)
    decreases |ts|
  {
    var i := |before|;
    if n == 0 {
      var x, y := SharpAccepts(ts[0]);
      s := SomeText(ts[1..], before + [x]);
      t := s[i := y];
      assert s[i] == s[..i + 1][i] == x;
      assert s[..i] == s[..i + 1][..i] == before;
      TightCovers(ts, s, i);
      TightCovers(ts, t, i);
    } else if ts[0].Star? {
      s, t := SharpTexts(ts[1..], n - 1, before);
      TightCovers(ts, s, i);
      TightCovers(ts, t, i);
    } else {
      assert !Dead(ts[0]);
      var x: Char :| Accepts(ts[0], x, true);
      s, t := SharpTexts(ts[1..], n - 1, before + [x]);
      assert s[..i] == s[..i + 1][..i] == before && t[..i] == t[..i + 1][..i] == before;
      assert s[i] == s[..i + 1][i] == x == t[..i + 1][i] == t[i];
      TightCovers(ts, s, i);
      TightCovers(ts, t, i);
    }
  }

  // ---------------------------------------------------------------- the matcher

  /** The class part of the matcher, from the byte after `[` and an optional `^`. It leaves
      `p` on the last byte of the class, where the matcher's own step takes over. */
  method MatchClass(pat: seq<Char>, p0: nat, x: Char, nocase: bool) returns (p: nat, matched: bool)
    requires 0 < p0 <= |pat|
    ensures p + 1 == ParseItems(pat, p0).1
    ensures matched == SomeItemAccepts(ParseItems(pat, p0).0, x, nocase)
  {
    p, matched := p0, false;
    ghost var all := ParseItems(pat, p0);
    while true
      invariant p0 <= p <= |pat|
      invariant ParseItems(pat, p).1 == all.1
      invariant SomeItemAccepts(all.0, x, nocase) == (matched || SomeItemAccepts(ParseItems(pat, p).0, x, nocase))
      decreases |pat| - p
    {
      var plen := |pat| - p;
      if At(pat, p) == BACKSLASH && plen >= 2 {
        ItemsSplit(Escaped(pat[p + 1]), ParseItems(pat, p + 2).0, x, nocase);
        p := p + 1;
        if pat[p] == x {
          matched := true;
        }
      } else if At(pat, p) == CLOSE {
        break;
      } else if plen == 0 {
        p := p - 1;
        break;
      } else if At(pat, p + 1) == DASH && plen >= 3 {
        ItemsSplit(Range(pat[p], pat[p + 2]), ParseItems(pat, p + 3).0, x, nocase);
        var start, end, c := pat[p], pat[p + 2], x;
        if start > end {
          start, end := end, start;
        }
        if nocase {
          start, end, c := ToLower(start), ToLower(end), ToLower(c);
        }
        p := p + 2;
        if start <= c <= end {
          matched := true;
        }
      } else {
        ItemsSplit(Plain(pat[p]), ParseItems(pat, p + 1).0, x, nocase);
        if !nocase {
          if pat[p] == x {
            matched := true;
          }
        } else if ToLower(pat[p]) == ToLower(x) {
          matched := true;
        }
      }
      p := p + 1;
    }
  }

  lemma ItemsSplit(item: Item, items: seq<Item>, x: Char, nocase: bool)
    ensures SomeItemAccepts([item] + items, x, nocase)
       <==> ItemAccepts(item, x, nocase) || SomeItemAccepts(items, x, nocase)
  {
    var all := [item] + items;
    if ItemAccepts(item, x, nocase) {
      assert ItemAccepts(all[0], x, nocase);
    }
    if i :| 0 <= i < |items| && ItemAccepts(items[i], x, nocase) {
      assert ItemAccepts(all[i + 1], x, nocase);
    }
  }

  /** One token that is not a star against one character. On success `p` is left on the last byte
      of the token. */
  method MatchOne(pat: seq<Char>, p0: nat, x: Char, nocase: bool) returns (p: nat, ok: bool)
    requires p0 < |pat| && pat[p0] != STAR
    ensures !ParseToken(pat, p0).0.Star? && ok == Accepts(ParseToken(pat, p0).0, x, nocase)
    ensures ok ==> p + 1 == ParseToken(pat, p0).1
  {
    p, ok := p0, true;
    if pat[p] == QUESTION {
    } else if pat[p] == OPEN {
      p := p + 1;
      var no := At(pat, p) == CARET;
      if no {
        p := p + 1;
      }
      p, ok := MatchClass(pat, p, x, nocase);
      if no {
        ok := !ok;
      }
    } else {
      if pat[p] == BACKSLASH && |pat| - p >= 2 {
        p := p + 1;
      }
      ok := if !nocase then pat[p] == x else ToLower(pat[p]) == ToLower(x);
    }
  }

  /** What the loop of the matcher keeps: the part consumed so far has a fixed length, so a
      match anywhere from `s0` on becomes a match of the rest of the pattern, shifted. */
  ghost predicate Consumed(pat: seq<Char>, p0: nat, p: nat, str: seq<Char>, s0: nat, s: nat, nocase: bool) {
    && p0 <= p <= |pat| && s0 <= s <= |str|
    && (Covers(Tokens(pat, p), str, s, nocase) ==> Covers(Tokens(pat, p0), str, s0, nocase))
    && forall j :: s0 <= j <= |str| && Covers(Tokens(pat, p0), str, j, nocase)
         ==> j + (s - s0) <= |str| && Covers(Tokens(pat, p), str, j + (s - s0), nocase)
  }

  lemma ConsumeOne(pat: seq<Char>, p0: nat, p: nat, str: seq<Char>, s0: nat, s: nat, nocase: bool)
    requires Consumed(pat, p0, p, str, s0, s, nocase)
    requires p < |pat| && s < |str| && pat[p] != STAR
    ensures var r := ParseToken(pat, p);
      !r.0.Star?
      && (Accepts(r.0, str[s], nocase) ==> Consumed(pat, p0, r.1, str, s0, s + 1, nocase))
      && (!Accepts(r.0, str[s], nocase) ==> !Covers(Tokens(pat, p0), str, s0, nocase))
  {
    var r := ParseToken(pat, p);
    var rest := Tokens(pat, r.1);
    CoversStep(r.0, rest, str, s, nocase);
    forall j | s0 <= j <= |str| && Covers(Tokens(pat, p0), str, j, nocase)
      ensures j + (s + 1 - s0) <= |str| && Covers(rest, str, j + (s + 1 - s0), nocase)
    {
      CoversStep(r.0, rest, str, j + (s - s0), nocase);
    }
  }

  lemma DropStar(pat: seq<Char>, p0: nat, p: nat, str: seq<Char>, s0: nat, s: nat, nocase: bool)
    requires Consumed(pat, p0, p, str, s0, s, nocase)
    requires p + 1 < |pat| && pat[p] == STAR && pat[p + 1] == STAR
    ensures Consumed(pat, p0, p + 1, str, s0, s, nocase)
  {
    var rest := Tokens(pat, p + 2);
    assert Tokens(pat, p + 1) == [Star] + rest;
    assert Tokens(pat, p) == [Star] + ([Star] + rest);
    forall j ensures Covers(Tokens(pat, p), str, j, nocase) <==> Covers(Tokens(pat, p + 1), str, j, nocase) {
      CoversStarStar(rest, str, j, nocase);
    }
  }

  /** The rest after a star fails everywhere from `s` on, so the pattern fails everywhere from
      `s0` on: this is what the cut-off flag says. */
  lemma StarFails(pat: seq<Char>, p0: nat, p: nat, rest: seq<Token>, str: seq<Char>, s0: nat, s: nat, nocase: bool)
    requires Consumed(pat, p0, p, str, s0, s, nocase)
    requires p + 1 < |pat| && pat[p] == STAR && pat[p + 1] != STAR
    requires rest == Tokens(pat, p + 1)
    requires forall k :: s <= k < |str| ==> !Covers(rest, str, k, nocase)
    ensures forall j :: s0 <= j <= |str| ==> !Covers(Tokens(pat, p0), str, j, nocase)
  {
    assert Tokens(pat, p) == [Star] + rest;
    CoversEnd(rest, str, nocase);
    assert !rest[0].Star?;
    forall j | s0 <= j <= |str| ensures !Covers(Tokens(pat, p0), str, j, nocase) {
      if Covers(Tokens(pat, p0), str, j, nocase) {
        CoversStar(rest, str, j + (s - s0), nocase);
      }
    }
  }

  lemma {:induction false} OnlyStarsLeft(pat: seq<Char>, p: nat, q: nat, str: seq<Char>, nocase: bool)
    requires p <= q <= |pat| && (forall n :: p <= n < q ==> pat[n] == STAR)
    requires q < |pat| ==> pat[q] != STAR
    ensures Covers(Tokens(pat, p), str, |str|, nocase) <==> q == |pat|
    decreases q - p
  {
    CoversEnd(Tokens(pat, p), str, nocase);
    if p < q {
      OnlyStarsLeft(pat, p + 1, q, str, nocase);
      CoversStar(Tokens(pat, p + 1), str, |str|, nocase);
    } else if p < |pat| {
      assert !Tokens(pat, p)[0].Star?;
    }
  }

  /** `matchLenImpl` on the pattern from `p0` and the subject from `s0`. Besides the answer it
      reports the cut-off flag: once set, no later start can match either. The flag is clear
      whenever the source makes a call. */
  method MatchImpl(pat: seq<Char>, p0: nat, str: seq<Char>, s0: nat, nocase: bool) returns (matched: bool, skip: bool)
    requires p0 <= |pat| && s0 <= |str|
    ensures s0 < |str| ==> matched == Covers(Tokens(pat, p0), str, s0, nocase)
    ensures s0 == |str| ==> matched == (p0 == |pat|)
    ensures skip ==> !matched && forall j :: s0 <= j <= |str| ==> !Covers(Tokens(pat, p0), str, j, nocase)
    decreases |pat| - p0, 1
  {
    skip := false;
    var p: nat, s: nat := p0, s0;
    while p < |pat| && s < |str|
      invariant Consumed(pat, p0, p, str, s0, s, nocase)
      invariant s == |str| ==> p == p0 && s0 == |str|
      decreases |pat| - p
    {
      ghost var tok := ParseToken(pat, p);
      if pat[p] == STAR {
        while At(pat, p + 1) == STAR
          invariant p < |pat| && pat[p] == STAR
          invariant Consumed(pat, p0, p, str, s0, s, nocase)
          decreases |pat| - p
        {
          DropStar(pat, p0, p, str, s0, s, nocase);
          p := p + 1;
        }
        if |pat| - p == 1 {
          CoversNothing(str, |str|, nocase);
          CoversStar([], str, s, nocase);
          assert Tokens(pat, p) == [Star] + [];
          return true, false;
        }
        matched := TryEveryStart(pat, p, str, s, nocase);
        if !matched {
          StarFails(pat, p0, p, Tokens(pat, p + 1), str, s0, s, nocase);
        }
        return matched, !matched;
      }
      ConsumeOne(pat, p0, p, str, s0, s, nocase);
      var ok;
      p, ok := MatchOne(pat, p, str[s], nocase);
      if !ok {
        return false, false;
      }
      s := s + 1;
      p := p + 1;
      assert p == tok.1;
      if s == |str| {
        ghost var q := p;
        while At(pat, p) == STAR
          invariant q <= p <= |pat| && forall n :: q <= n < p ==> pat[n] == STAR
          decreases |pat| - p
        {
          p := p + 1;
        }
        OnlyStarsLeft(pat, q, p, str, nocase);
        return p == |pat|, false;
      }
    }
    CoversNothing(str, s, nocase);
    return p == |pat| && s == |str|, false;
  }

  /** The star case of `matchLenImpl`: the rest of the pattern is tried at every start, until it
      matches or a call reports that no later start can. */
  method TryEveryStart(pat: seq<Char>, p: nat, str: seq<Char>, s0: nat, nocase: bool) returns (matched: bool)
    requires p + 1 < |pat| && pat[p] == STAR && pat[p + 1] != STAR && s0 < |str|
    ensures matched == Covers(Tokens(pat, p), str, s0, nocase)
    ensures !matched ==> var rest := Tokens(pat, p + 1);
      forall k :: s0 <= k < |str| ==> !Covers(rest, str, k, nocase)
    decreases |pat| - p, 0
  {
    ghost var rest := Tokens(pat, p + 1);
    var s := s0;
    while s < |str|
      invariant s0 <= s <= |str|
      invariant forall k :: s0 <= k < s ==> !Covers(rest, str, k, nocase)
    {
      var skip;
      matched, skip := MatchImpl(pat, p + 1, str, s, nocase);
      if matched {
        StartFound(pat, p, str, s0, s, nocase);
        return;
      }
      if skip {
        break;
      }
      s := s + 1;
    }
    NoStart(pat, p, rest, str, s0, nocase);
    return false;
  }

  lemma StartFound(pat: seq<Char>, p: nat, str: seq<Char>, s0: nat, s: nat, nocase: bool)
    requires p < |pat| && pat[p] == STAR && s0 <= s <= |str| && Covers(Tokens(pat, p + 1), str, s, nocase)
    ensures Covers(Tokens(pat, p), str, s0, nocase)
  {
    assert Tokens(pat, p) == [Star] + Tokens(pat, p + 1);
    CoversStar(Tokens(pat, p + 1), str, s0, nocase);
  }

  lemma NoStart(pat: seq<Char>, p: nat, rest: seq<Token>, str: seq<Char>, s0: nat, nocase: bool)
    requires p + 1 < |pat| && pat[p] == STAR && pat[p + 1] != STAR && s0 < |str| && rest == Tokens(pat, p + 1)
    requires forall k :: s0 <= k < |str| ==> !Covers(rest, str, k, nocase)
    ensures !Covers(Tokens(pat, p), str, s0, nocase)
  {
    assert Tokens(pat, p) == [Star] + rest;
    CoversStar(rest, str, s0, nocase);
    CoversEnd(rest, str, nocase);
    assert !rest[0].Star?;
  }

  /** What `matchLen` answers. */
  ghost predicate Answer(pat: seq<Char>, str: seq<Char>, nocase: bool) {
    if str == [] then pat == [] else Matches(pat, str, nocase)
  }

  /** The case of letters in the subject never matters. */
  ghost predicate IgnoresCase(pat: seq<Char>) {
    forall s, t :: SameText(s, t) ==> Answer(pat, s, true) == Answer(pat, t, true)
  }

  ghost predicate HasDead(ts: seq<Token>) {
    exists n: nat :: n < |ts| && Dead(ts[n])
  }

  ghost predicate AllBlind(ts: seq<Token>) {
    forall n: nat :: n < |ts| ==> Blind(ts[n])
  }

  /** That is so exactly when some token of the pattern accepts nothing, or every escaped letter of a class has its
      other form accepted by the class too. */
  lemma IgnoresCaseIff(pat: seq<Char>)
    ensures IgnoresCase(pat) <==> HasDead(Tokens(pat, 0)) || AllBlind(Tokens(pat, 0))
  {
    var ts := Tokens(pat, 0);
    if HasDead(ts) {
      var n: nat :| n < |ts| && Dead(ts[n]);
      forall s, t | SameText(s, t) ensures Answer(pat, s, true) == Answer(pat, t, true) {
        DeadCovers(ts, n, s, 0);
        DeadCovers(ts, n, t, 0);
      }
    } else if AllBlind(ts) {
      forall s, t | SameText(s, t) ensures Answer(pat, s, true) == Answer(pat, t, true) {
        if Covers(ts, s, 0, true) {
          BlindCovers(ts, s, t, 0);
        }
        if Covers(ts, t, 0, true) {
          BlindCovers(ts, t, s, 0);
        }
      }
    } else {
      var n: nat :| n < |ts| && !Blind(ts[n]);
      var s, t := SharpTexts(ts, n, []);
      SinglesOfSharp(ts, n);
      assert SameText(s, t) && Answer(pat, s, true) != Answer(pat, t, true);
    }
  }

  /** Without classes in the pattern it is so. */
  lemma NoClassIgnoresCase(pat: seq<Char>)
    requires forall n :: 0 <= n < |pat| ==> pat[n] != OPEN
    ensures IgnoresCase(pat)
  {
    NoClassTokens(pat, 0);
    IgnoresCaseIff(pat);
  }

  lemma {:induction false} NoClassTokens(pat: seq<Char>, p: nat)
    requires p <= |pat| && forall n :: 0 <= n < |pat| ==> pat[n] != OPEN
    ensures AllBlind(Tokens(pat, p))
    decreases |pat| - p
  {
    if p < |pat| {
      var r := ParseToken(pat, p);
      NoClassTokens(pat, r.1);
      forall n: nat | n < |Tokens(pat, p)| ensures Blind(Tokens(pat, p)[n]) {
        if n > 0 {
          assert Tokens(pat, p)[n] == Tokens(pat, r.1)[n - 1];
        }
      }
    }
  }

  lemma {:induction false} SinglesOfSharp(ts: seq<Token>, n: nat)
    requires n < |ts| && !Blind(ts[n])
    ensures Singles(ts) > 0
  {
    if n > 0 {
      SinglesOfSharp(ts[1..], n - 1);
    }
  }

  /** `matchLen`: on a non-empty subject it decides exactly the meaning of the pattern; on an
      empty subject it accepts the empty pattern alone. */
  method MatchLen(pat: seq<Char>, str: seq<Char>, nocase: bool) returns (matched: bool)
    ensures matched == Answer(pat, str, nocase)
  {
    var skip;
    matched, skip := MatchImpl(pat, 0, str, 0, nocase);
  }

  /** Where the code and the meaning of its patterns part: exactly on an empty subject with a
      non-empty pattern made of stars alone, which means "anything" but is refused. */
  lemma EmptySubject(pat: seq<Char>, str: seq<Char>, nocase: bool)
    ensures Answer(pat, str, nocase) == Matches(pat, str, nocase)
      <==> !(str == [] && pat != [] && forall n :: 0 <= n < |pat| ==> pat[n] == STAR)
  {
    if str == [] {
      var q := StarsEnd(pat);
      OnlyStarsLeft(pat, 0, q, str, nocase);
    }
  }

  lemma StarsEnd(pat: seq<Char>) returns (q: nat)
    ensures q <= |pat| && (forall n :: 0 <= n < q ==> pat[n] == STAR)
    ensures q < |pat| ==> pat[q] != STAR
  {
    q := 0;
    while q < |pat| && pat[q] == STAR
      invariant q <= |pat| && forall n :: 0 <= n < q ==> pat[n] == STAR
    {
      q := q + 1;
    }
  }
}
