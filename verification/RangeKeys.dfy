/** Ranges as map keys: compared as numbers, but hashed by their bits. */
module RangeKeys {
  import opened Wrappers
  import opened HashTable
  import opened ObjMap

  /** A range by the bits of its ends. */
  datatype Range = Range(from: bv64, to: bv64, isInclusive: bool)

  const ZERO: bv64 := 0
  const NEGATIVE_ZERO: bv64 := 0x8000_0000_0000_0000

  /** Two numbers are equal if they have the same bits, or are both zero; numbers that are not equal to themselves
      are left out. */
  predicate SameNumber(a: bv64, b: bv64) {
    a == b || (IsZero(a) && IsZero(b))
  }

  predicate IsZero(a: bv64) {
    a == ZERO || a == NEGATIVE_ZERO
  }

  predicate SameRange(a: Range, b: Range) {
    SameNumber(a.from, b.from) && SameNumber(a.to, b.to) && a.isInclusive == b.isInclusive
  }

  function HashBits(bits: bv64): bv32 {
    var folded := (bits & 0xFFFF_FFFF) as bv32 ^ (bits >> 32) as bv32;
    var mixed := folded ^ (folded >> 20) ^ (folded >> 12);
    mixed ^ (mixed >> 7) ^ (mixed >> 4)
  }

  function HashRange(r: Range): bv32 {
    HashBits(r.from) ^ HashBits(r.to)
  }

  // ----- Ranges ---------------------------------------------------------------------------------------------

  /** The bits of 0, -0, 1, 2, ... 12. */
  const STARTS: seq<bv64> :=
    [ZERO, NEGATIVE_ZERO, 0x3FF0_0000_0000_0000, 0x4000_0000_0000_0000, 0x4008_0000_0000_0000, 0x4010_0000_0000_0000,
     0x4014_0000_0000_0000, 0x4018_0000_0000_0000, 0x401C_0000_0000_0000, 0x4020_0000_0000_0000, 0x4022_0000_0000_0000,
     0x4024_0000_0000_0000, 0x4026_0000_0000_0000, 0x4028_0000_0000_0000]

  const LAST := 13

  /** Keys that are ranges from one of these numbers to zero. */
  function RangeOf(key: Key): Range {
    Range(STARTS[if key < LAST then key else LAST], ZERO, true)
  }

  /** Equal ranges are one key. */
  function Canon(key: Key): nat {
    if key == 1 then 0 else if key < LAST then key else LAST
  }

  const RANGES := Hashing(Canon, (key: Key) => HashRange(RangeOf(key)) as nat)

  lemma {:induction false} CanonIs(a: Key, b: Key)
    ensures SameRange(RangeOf(a), RangeOf(b)) <==> RANGES.canon(a) == RANGES.canon(b)
  {
    Different(if a < LAST then a else LAST, if b < LAST then b else LAST);
  }

  /** Two of the numbers are the same only if they are zeros. */
  lemma {:induction false} Different(i: nat, j: nat)
    requires i <= LAST && j <= LAST
    ensures SameNumber(STARTS[i], STARTS[j]) <==> i == j || (i <= 1 && j <= 1)
  {
    if i > j {
      Different(j, i);
    }
  }

  /** The ranges 0..0 and -0..0 are equal, but their hashes differ; their homes are the same in the smallest table,
      and differ when it has grown once. */
  lemma {:induction false} HomesDiffer()
    ensures SameRange(RangeOf(0), RangeOf(1)) && RANGES.canon(0) == RANGES.canon(1)
    ensures Home(RANGES, 0, 16) == Home(RANGES, 1, 16) == 0
    ensures Home(RANGES, 0, 32) == 0 && Home(RANGES, 1, 32) == 16
    ensures RANGES.hash(0) != RANGES.hash(1) && !HomesAgree(RANGES, 32)
  {
    assert HashBits(ZERO) == 0;
    assert HashBits(NEGATIVE_ZERO) == 0x8908_9890;
    assert HashRange(RangeOf(0)) == 0;
    assert HashRange(RangeOf(1)) == 0x8908_9890;
    CanonIs(0, 1);
  }

  // ----- A map of ranges ------------------------------------------------------------------------------------

  lemma {:induction false} FilledBlock<V>(s: seq<Entry<V>>, a: nat, b: nat)
    requires a <= b <= |s| && forall j :: a <= j < b ==> s[j].Live?
    ensures Filled(s) >= b - a
  {
    if s != [] {
      var rest := s[..|s| - 1];
      FilledBlock(rest, if a <= |rest| then a else |rest|, if b <= |rest| then b else |rest|);
    }
  }

  lemma {:induction false} SearchMisses<V>(H: Hashing, s: seq<Entry<V>>, key: Key, d: nat, t: nat)
    requires d <= t < |s| && s[At(Home(H, key, |s|), t, |s|)].Empty?
    requires forall e :: d <= e < t ==> !LiveAs(H, s[At(Home(H, key, |s|), e, |s|)], H.canon(key))
    ensures Search(H, s, key, d).None?
    decreases t - d
  {
    if d < t {
      SearchMisses(H, s, key, d + 1, t);
    }
  }

  /** In a table of 32 slots that has few entries, among them 0..0, the probe for -0..0 comes to an empty slot. */
  lemma {:induction false} NotFoundFromHere<V>(s: seq<Entry<V>>)
    requires |s| == 32 && Table(RANGES, s) && NoTombstones(s) && 1 !in KeysOf(s) && Filled(s) < 16
    ensures Search(RANGES, s, 1, 0).None?
  {
    HomesDiffer();
    hide RANGES, HashRange, Table, Search;
    if forall j :: 16 <= j < 32 ==> !s[j].Empty? {
      FilledBlock(s, 16, 32);
      assert false;
    }
    var t: nat :| 16 <= t < 32 && s[t].Empty?;
    forall e | 0 <= e < t - 16 ensures !LiveAs(RANGES, s[At(16, e, 32)], RANGES.canon(1)) {
      NotHigh(s, 16 + e);
    }
    SearchMisses(RANGES, s, 1, 0, t - 16);
  }

  /** The range 0..0 is not in the upper half. */
  lemma {:induction false} NotHigh<V>(s: seq<Entry<V>>, j: nat)
    requires |s| == 32 && 16 <= j < 32 && Table(RANGES, s) && NoTombstones(s) && 1 !in KeysOf(s) && Filled(s) < 16
    ensures !LiveAs(RANGES, s[j], RANGES.canon(1))
  {
    if LiveAs(RANGES, s[j], RANGES.canon(1)) {
      assert s[j].key in KeysOf(s);
      assert s[j].key == 0;
      HomesDiffer();
      assert Findable(RANGES, s, j);
      forall i | 0 <= i < 16 ensures s[i].Live? {
        assert At(0, i, 32) == i;
      }
      FilledBlock(s, 0, 16);
    }
  }

  /** A map that has got the ranges 0..0, 1..0, 2..0, ... 12..0, one after the other, does not find -0..0, though that
      is the same key as 0..0. */
  method RangeNotFound() returns (m: ObjMap<nat>, r: Option<nat>)
    ensures fresh(m) && m.Valid() && m.H == RANGES && SameRange(RangeOf(0), RangeOf(1))
    ensures RANGES.canon(1) == RANGES.canon(0) && RANGES.canon(1) in m.Map() && r == None
  {
    hide HashRange, Table;
    HomesDiffer();
    m := new ObjMap(RANGES);
    m.Set(0, 0);
    for key := 2 to LAST + 1
      invariant fresh(m) && fresh(m.entries) && m.Valid() && m.H == RANGES && NoTombstones(m.entries[..])
      invariant m.count == key - 1 && m.entries.Length == if key <= 13 then 16 else 32
      invariant 1 !in KeysOf(m.entries[..]) && 0 in m.Map() && forall c :: c in m.Map() ==> c < key
    {
      NewAgrees(RANGES, m.entries[..], key);
      m.Set(key, key);
    }
    NotFoundFromHere(m.entries[..]);
    r := m.Get(1);
  }
}
