/** `KeyHash::keyHashSlot`: the slot of a key is the checksum of its hash tag, or of the whole key when it
    has none, modulo 16384. */
module KeyHash {
  import C = Crc16

  const OPEN: bv8 := 0x7b
  const CLOSE: bv8 := 0x7d

  /** `i` is the first position of `c` at or behind `from`. */
  ghost predicate FirstAt(key: seq<bv8>, c: bv8, from: nat, i: nat) {
    from <= i < |key| && key[i] == c && forall k :: from <= k < i ==> key[k] != c
  }

  ghost predicate TagAt(key: seq<bv8>, s: nat, e: nat) {
    FirstAt(key, OPEN, 0, s) && FirstAt(key, CLOSE, s + 1, e) && e > s + 1
  }

  /** The section 'Hash tags' of the Redis Cluster Specification: `tag` is what lies between the first
      opening brace and the first closing brace behind it, and it is not empty. */
  ghost predicate HasTag(key: seq<bv8>, tag: seq<bv8>) {
    exists s: nat, e: nat :: TagAt(key, s, e) && tag == key[s + 1..e]
  }

  /** The part of a key that decides its slot: its tag, or all of it when it has none. */
  ghost predicate Decides(key: seq<bv8>, part: seq<bv8>) {
    HasTag(key, part) || (part == key && forall tag :: !HasTag(key, tag))
  }

  /** There is just one such part. */
  lemma DecidesOne(key: seq<bv8>, a: seq<bv8>, b: seq<bv8>)
    requires Decides(key, a) && Decides(key, b)
    ensures a == b
  {
    if HasTag(key, a) && HasTag(key, b) {
      var s: nat, e: nat :| TagAt(key, s, e) && a == key[s + 1..e];
      var t: nat, f: nat :| TagAt(key, t, f) && b == key[t + 1..f];
      assert s == t;
      assert e == f;
    }
  }

  /** A key with a tag goes where the tag alone goes, whatever surrounds it. */
  lemma TagDecides(pre: seq<bv8>, tag: seq<bv8>, post: seq<bv8>)
    requires OPEN !in pre && CLOSE !in tag && tag != []
    ensures Decides(pre + [OPEN] + tag + [CLOSE] + post, tag) && Decides(tag, tag)
  {
    var key, s, e := pre + [OPEN] + tag + [CLOSE] + post, |pre|, |pre| + 1 + |tag|;
    assert forall k :: 0 <= k < s ==> key[k] == pre[k];
    assert forall k :: s + 1 <= k < e ==> key[k] == tag[k - s - 1];
    assert TagAt(key, s, e) && key[s + 1..e] == tag;
    forall other ensures !HasTag(tag, other) {
    }
  }

  lemma LowBits(r: bv16, low: bv16)
    requires low == r & 0x3fff
    ensures low < 0x4000
  {
  }

  lemma LowNumber(low: bv16)
    requires low < 0x4000
    ensures low as int < 16384
  {
  }

  lemma SecondQuarter(r: bv16, low: bv16)
    requires 0x4000 <= r < 0x8000 && low == r & 0x3fff
    ensures r as int == low as int + 16384
  {
    assert r == low + 0x4000;
  }

  lemma ThirdQuarter(r: bv16, low: bv16)
    requires 0x8000 <= r < 0xc000 && low == r & 0x3fff
    ensures r as int == low as int + 32768
  {
    assert r == low + 0x8000;
  }

  lemma FourthQuarter(r: bv16, low: bv16)
    requires 0xc000 <= r && low == r & 0x3fff
    ensures r as int == low as int + 49152
  {
    assert r == low + 0xc000;
  }

  lemma Quarter(r: bv16, low: bv16) returns (q: nat)
    requires low == r & 0x3fff
    ensures r as int == q * 16384 + low as int
  {
    if r < 0x4000 {
      q := 0;
    } else if r < 0x8000 {
      SecondQuarter(r, low);
      q := 1;
    } else if r < 0xc000 {
      ThirdQuarter(r, low);
      q := 2;
    } else {
      FourthQuarter(r, low);
      q := 3;
    }
  }

  lemma Numbers(r: bv16, low: bv16) returns (x: nat, rest: nat, q: nat)
    requires low == r & 0x3fff
    ensures x == r as int && rest == low as int && x == q * 16384 + rest && rest < 16384
  {
    q := Quarter(r, low);
    LowBits(r, low);
    LowNumber(low);
    x, rest := r as int, low as int;
  }

  lemma RestIs(x: nat, q: nat, rest: nat)
    requires x == q * 16384 + rest && rest < 16384
    ensures x % 16384 == rest
  {
  }

  /** Keeping the low fourteen bits of a number is taking it modulo 16384. */
  lemma MaskIsModulo(r: bv16, low: bv16)
    requires low == r & 0x3fff
    ensures low as int == r as int % 16384
  {
    var x, rest, q := Numbers(r, low);
    RestIs(x, q, rest);
  }

  /** The slot of what decides it: the checksum as a number, modulo the number of slots. */
  ghost function SlotOf(part: seq<bv8>): (slot: nat)
    ensures slot < 16384
  {
    C.Crc(0, part) as nat % 16384
  }

  ghost function PartOf(key: seq<bv8>): (part: seq<bv8>)
    ensures Decides(key, part)
  {
    if exists tag :: HasTag(key, tag) then var tag :| HasTag(key, tag); tag else key
  }

  /** The slot of a key. */
  ghost function KeySlot(key: seq<bv8>): (slot: nat)
    ensures slot < 16384
  {
    SlotOf(PartOf(key))
  }

  /** A key with a tag has the slot of the tag, whatever surrounds it. */
  lemma TagSlot(pre: seq<bv8>, tag: seq<bv8>, post: seq<bv8>)
    requires 0x7b !in pre && 0x7d !in tag && tag != []
    ensures KeySlot(pre + [0x7b] + tag + [0x7d] + post) == KeySlot(tag) == SlotOf(tag)
  {
    var key := pre + [OPEN] + tag + [CLOSE] + post;
    TagDecides(pre, tag, post);
    DecidesOne(key, PartOf(key), tag);
    DecidesOne(tag, PartOf(tag), tag);
  }

  /** `keyHashSlot` */
  method KeyHashSlot(key: seq<bv8>) returns (slot: nat)
    ensures slot == KeySlot(key)
  {
    ghost var part;
    slot, part := SlotAndPart(key);
    DecidesOne(key, part, PartOf(key));
  }

  method HashPart(part: seq<bv8>) returns (slot: nat)
    ensures slot == SlotOf(part)
  {
    var crc := C.Checksum(part);
    MaskIsModulo(crc, crc & 0x3fff);
    slot := (crc & 0x3fff) as int;
  }

  method SlotAndPart(key: seq<bv8>) returns (slot: nat, ghost part: seq<bv8>)
    ensures Decides(key, part) && slot == SlotOf(part)
  {
    var s := 0;
    while s < |key| && key[s] != OPEN
      invariant 0 <= s <= |key| && forall k :: 0 <= k < s ==> key[k] != OPEN
    {
      s := s + 1;
    }
    part := key;
    if s < |key| {
      var e := s + 1;
      while e < |key| && key[e] != CLOSE
        invariant s + 1 <= e <= |key| && forall k :: s + 1 <= k < e ==> key[k] != CLOSE
      {
        e := e + 1;
      }
      if e != |key| && e != s + 1 {
        part := key[s + 1..e];
        assert TagAt(key, s, e);
        slot := HashPart(key[s + 1..e]);
        return;
      }
    }
    assert forall t: nat, f: nat :: !TagAt(key, t, f);
    slot := HashPart(key);
  }
}
