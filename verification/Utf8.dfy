/** UTF-8: code points to bytes and back, and slices of strings. */
module Utf8 {
  import opened Wrappers
  import opened Octets

  // ----- Encoding and decoding ------------------------------------------------------------------------------

  function EncodeNumBytes(value: nat): nat {
    if value <= 0x7f then 1
    else if value <= 0x7ff then 2
    else if value <= 0xffff then 3
    else if value <= 0x10ffff then 4
    else 0
  }

  /** A byte that carries six bits on. */
  function Continuation(bits: nat): byte {
    (0x80 + bits % 0x40) as byte
  }

  function Encode(value: nat): (s: seq<byte>)
    ensures |s| == EncodeNumBytes(value)
  {
    if value <= 0x7f then [value as byte]
    else if value <= 0x7ff then [(0xc0 + value / 0x40) as byte, Continuation(value)]
    else if value <= 0xffff then
      [(0xe0 + value / 0x1000) as byte, Continuation(value / 0x40), Continuation(value)]
    else if value <= 0x10ffff then
      [(0xf0 + value / 0x4_0000) as byte, Continuation(value / 0x1000), Continuation(value / 0x40), Continuation(value)]
    else []
  }

  /** How many bytes the first byte of a character announces; none in the middle of one. */
  function DecodeNumBytes(b: byte): nat {
    if 0x80 <= b < 0xc0 then 0
    else if 0xf0 <= b < 0xf8 then 4
    else if 0xe0 <= b < 0xf0 then 3
    else if 0xc0 <= b < 0xe0 then 2
    else 1
  }

  /** The code point the bytes begin with. */
  method Decode(bytes: seq<byte>) returns (r: Option<nat>)
    requires bytes != []
    ensures r == Decoded(bytes)
  {
    var b := bytes[0];
    if b <= 0x7f {
      return Some(b as nat);
    }
    var value: nat;
    var remaining: nat;
    if 0xc0 <= b < 0xe0 {
      value, remaining := b as nat - 0xc0, 1;
    } else if 0xe0 <= b < 0xf0 {
      value, remaining := b as nat - 0xe0, 2;
    } else if 0xf0 <= b < 0xf8 {
      value, remaining := b as nat - 0xf0, 3;
    } else {
      return None;
    }
    if remaining > |bytes| - 1 {
      return None;
    }
    var i := 0;
    ghost var total := remaining;
    ghost var first := value;
    while remaining > 0
      invariant i + remaining == total && total < |bytes|
      invariant Carried(bytes[1 + i..], remaining, value) == Carried(bytes[1..], total, first)
    {
      i := i + 1;
      remaining := remaining - 1;
      if !(0x80 <= bytes[i] < 0xc0) {
        return None;
      }
      assert bytes[i..][1..] == bytes[i + 1..];
      value := value * 0x40 + (bytes[i] as nat - 0x80);
    }
    return Some(value);
  }

  /** `value` with the bits of the next `n` bytes. */
  function Carried(bytes: seq<byte>, n: nat, value: nat): Option<nat>
    requires n <= |bytes|
  {
    if n == 0 then Some(value)
    else if 0x80 <= bytes[0] < 0xc0 then Carried(bytes[1..], n - 1, value * 0x40 + (bytes[0] as nat - 0x80))
    else None
  }

  function Decoded(bytes: seq<byte>): (r: Option<nat>)
    requires bytes != []
  {
    var b := bytes[0];
    var n := DecodeNumBytes(b);
    if b <= 0x7f then Some(b as nat)
    else if n < 2 || n > |bytes| then None
    else Carried(bytes[1..], n - 1, b as nat - (if n == 2 then 0xc0 else if n == 3 then 0xe0 else 0xf0))
  }

  /** Decoding undoes encoding, whatever follows. */
  lemma {:induction false} DecodeEncode(value: nat, rest: seq<byte>)
    requires value <= 0x10ffff
    ensures Decoded(Encode(value) + rest) == Some(value)
    ensures DecodeNumBytes(Encode(value)[0]) == |Encode(value)|
    ensures forall k :: 0 < k < |Encode(value)| ==> 0x80 <= Encode(value)[k] < 0xc0
  {
    var s := Encode(value);
    var bytes := s + rest;
    if 0x7f < value <= 0x7ff {
      Carry1(bytes, value / 0x40, value);
    } else if 0x7ff < value <= 0xffff {
      Carry2(bytes, value / 0x1000, value);
    } else if 0xffff < value {
      Carry3(bytes, value / 0x4_0000, value);
    }
  }

  lemma {:induction false} Carry1(bytes: seq<byte>, high: nat, value: nat)
    requires |bytes| >= 2 && bytes[1] == Continuation(value) && high == value / 0x40
    ensures Carried(bytes[1..], 1, high) == Some(value)
  {
    assert Carried(bytes[1..][1..], 0, value) == Some(value);
  }

  lemma {:induction false} Carry2(bytes: seq<byte>, high: nat, value: nat)
    requires |bytes| >= 3 && bytes[1] == Continuation(value / 0x40) && bytes[2] == Continuation(value)
             && high == value / 0x1000
    ensures Carried(bytes[1..], 2, high) == Some(value)
  {
    Carry1(bytes[1..], value / 0x40, value);
    assert high == value / 0x40 / 0x40;
  }

  lemma {:induction false} Carry3(bytes: seq<byte>, high: nat, value: nat)
    requires |bytes| >= 4 && bytes[1] == Continuation(value / 0x1000) && bytes[2] == Continuation(value / 0x40)
             && bytes[3] == Continuation(value) && high == value / 0x4_0000
    ensures Carried(bytes[1..], 3, high) == Some(value)
  {
    Carry2(bytes[1..], value / 0x1000, value);
    assert high == value / 0x1000 / 0x40;
  }

  // ----- Slices ---------------------------------------------------------------------------------------------

  /** The character that begins at byte `p` of a string; nothing in the middle of one. */
  function Piece(source: seq<byte>, p: nat): (s: seq<byte>)
    requires p < |source|
  {
    match Decoded(source[p..])
    case Some(value) => Encode(value)
    case None => []
  }

  /** A place gives at most the bytes its first one announces, whatever the bytes are. */
  lemma {:induction false} PieceFits(source: seq<byte>, p: nat)
    requires p < |source|
    ensures |Piece(source, p)| <= DecodeNumBytes(source[p])
  {
    var bytes := source[p..];
    var n := DecodeNumBytes(bytes[0]);
    if bytes[0] > 0x7f && 2 <= n <= |bytes| {
      if n == 2 {
        CarryBound(bytes[1..], 1, bytes[0] as nat - 0xc0, 0x20);
      } else if n == 3 {
        CarryBound(bytes[1..], 2, bytes[0] as nat - 0xe0, 0x10);
      }
    }
  }

  function Shift6(n: nat, bound: nat): nat {
    if n == 0 then bound else Shift6(n - 1, bound * 0x40)
  }

  lemma {:induction false} CarryBound(bytes: seq<byte>, n: nat, value: nat, bound: nat)
    requires n <= |bytes| && value < bound
    ensures Carried(bytes, n, value).Some? ==> Carried(bytes, n, value).value < Shift6(n, bound)
  {
    if n > 0 && 0x80 <= bytes[0] < 0xc0 {
      CarryBound(bytes[1..], n - 1, value * 0x40 + (bytes[0] as nat - 0x80), bound * 0x40);
    }
  }

  /** The places of a slice, each a step from the last. */
  function Place(start: int, i: nat, step: int): int {
    if step == 0 then start else if step > 0 then start + i else start - i
  }

  predicate InRange(length: nat, start: int, count: nat, step: int) {
    forall i: nat :: i < count ==> 0 <= Place(start, i, step) < length
  }

  /** What the places of a slice give. */
  function Pieces(source: seq<byte>, start: int, count: nat, step: int): (s: seq<byte>)
    requires InRange(|source|, start, count, step)
  {
    if count == 0 then []
    else Pieces(source, start, count - 1, step) + Piece(source, Place(start, count - 1, step))
  }

  /** What their first bytes announce. */
  function Announced(source: seq<byte>, start: int, count: nat, step: int): nat
    requires InRange(|source|, start, count, step)
  {
    if count == 0 then 0
    else Announced(source, start, count - 1, step) + DecodeNumBytes(source[Place(start, count - 1, step)])
  }

  lemma {:induction false} PiecesFit(source: seq<byte>, start: int, count: nat, step: int)
    requires InRange(|source|, start, count, step)
    ensures |Pieces(source, start, count, step)| <= Announced(source, start, count, step)
  {
    if count > 0 {
      PiecesFit(source, start, count - 1, step);
      PieceFits(source, Place(start, count - 1, step));
    }
  }

  lemma {:induction false} Shorter(source: seq<byte>, start: int, n: nat, count: nat, step: int)
    requires InRange(|source|, start, count, step) && n <= count
    ensures InRange(|source|, start, n, step)
    ensures |Pieces(source, start, n, step)| <= Announced(source, start, n, step) <= Announced(source, start, count,
                                                                                               step)
  {
    PiecesFit(source, start, n, step);
    if n < count {
      Shorter(source, start, n, count - 1, step);
    }
  }

  /** A slice of a string, in a buffer whose length is worked out first. Whatever the bytes of the string are, the
      slice fits into the buffer. */
  method FromRange(source: seq<byte>, start: int, count: nat, step: int) returns (result: array<byte>, filled: nat)
    requires InRange(|source|, start, count, step)
    ensures fresh(result) && result.Length == Announced(source, start, count, step)
    ensures filled <= result.Length && result[..filled] == Pieces(source, start, count, step)
  {
    hide Encode, DecodeNumBytes, Decoded;
    var length := 0;
    for i := 0 to count
      invariant InRange(|source|, start, i, step) && length == Announced(source, start, i, step)
    {
      length := length + DecodeNumBytes(source[Place(start, i, step)]);
    }
    result := new byte[length];
    filled := 0;
    for i := 0 to count
      invariant InRange(|source|, start, i, step) && filled <= length
                && result[..filled] == Pieces(source, start, i, step)
    {
      var index := Place(start, i, step);
      var codePoint := Decode(source[index..]);
      Shorter(source, start, i + 1, count, step);
      assert Pieces(source, start, i + 1, step) == Pieces(source, start, i, step) + Piece(source, index);
      if codePoint.Some? {
        filled := Put(result, filled, Encode(codePoint.value));
      }
    }
  }

  method Put(to: array<byte>, at: nat, bytes: seq<byte>) returns (end: nat)
    requires at + |bytes| <= to.Length
    modifies to
    ensures end == at + |bytes| && to[..end] == old(to[..at]) + bytes
  {
    forall k | 0 <= k < |bytes| {
      to[at + k] := bytes[k];
    }
    end := at + |bytes|;
    assert to[..at] == old(to[..at]);
    assert to[at..end] == bytes;
    assert to[..end] == to[..at] + to[at..end];
  }

  // ----- Strings of code points -----------------------------------------------------------------------------

  predicate CodePoints(cs: seq<nat>) {
    forall c :: c in cs ==> c <= 0x10ffff
  }

  function EncodeAll(cs: seq<nat>): seq<byte> {
    if cs == [] then [] else EncodeAll(cs[..|cs| - 1]) + Encode(cs[|cs| - 1])
  }

  function Reverse(cs: seq<nat>): seq<nat> {
    if cs == [] then [] else [cs[|cs| - 1]] + Reverse(cs[..|cs| - 1])
  }

  /** A source that begins with an encoded string, seen at the last character of that. */
  lemma {:induction false} LastCharacter(cs: seq<nat>, source: seq<byte>)
    requires cs != [] && CodePoints(cs) && EncodeAll(cs) <= source
    ensures var cs', c := cs[..|cs| - 1], cs[|cs| - 1];
            var m := |EncodeAll(cs')|;
            && CodePoints(cs') && c <= 0x10ffff
            && |EncodeAll(cs)| == m + |Encode(c)| && EncodeAll(cs) == EncodeAll(cs') + Encode(c)
            && EncodeAll(cs') <= source && source[m..] == Encode(c) + source[m + |Encode(c)|..]
            && Reverse(cs) == [c] + Reverse(cs')
  {
    hide Encode;
    var cs', c := cs[..|cs| - 1], cs[|cs| - 1];
    assert CodePoints(cs') by { assert forall d :: d in cs' ==> d in cs; }
    assert c in cs;
    assert EncodeAll(cs) == EncodeAll(cs') + Encode(c);
    assert Reverse(cs) == [c] + Reverse(cs');
    Halves(EncodeAll(cs'), Encode(c), source);
  }

  lemma {:induction false} Halves(a: seq<byte>, b: seq<byte>, s: seq<byte>)
    requires a + b <= s
    ensures a <= s && s[|a|..] == b + s[|a| + |b|..]
  {
    assert s == a + b + s[|a| + |b|..];
  }

  /** A character within a string. */
  lemma {:induction false} OneCharacter(source: seq<byte>, p: nat, c: nat, rest: seq<byte>, k: nat)
    requires c <= 0x10ffff && p <= |source| && source[p..] == Encode(c) + rest && k < |Encode(c)|
    ensures p + |Encode(c)| <= |source|
    ensures Piece(source, p + k) == if k == 0 then Encode(c) else []
    ensures DecodeNumBytes(source[p + k]) == |Piece(source, p + k)|
  {
    DecodeEncode(c, rest);
    assert source[p + k] == source[p..][k] == Encode(c)[k];
    assert source[p + k..][0] == source[p + k];
    if k == 0 {
      assert Decoded(source[p..]) == Some(c);
    } else {
      assert Decoded(source[p + k..]).None?;
    }
  }

  /** In an encoded string every place gives as many bytes as its first byte announces. */
  lemma {:induction false} PieceExact(cs: seq<nat>, source: seq<byte>, p: nat)
    requires CodePoints(cs) && EncodeAll(cs) <= source && p < |EncodeAll(cs)|
    ensures DecodeNumBytes(source[p]) == |Piece(source, p)|
  {
    var cs', c := cs[..|cs| - 1], cs[|cs| - 1];
    var m := |EncodeAll(cs')|;
    hide Encode, EncodeAll, CodePoints, Piece, DecodeNumBytes;
    LastCharacter(cs, source);
    if p < m {
      PieceExact(cs', source, p);
    } else {
      OneCharacter(source, m, c, source[m + |Encode(c)|..], p - m);
    }
  }

  /** Any slice of an encoded string fills its buffer exactly. */
  lemma {:induction false} SliceExact(cs: seq<nat>, start: int, count: nat, step: int)
    requires CodePoints(cs) && InRange(|EncodeAll(cs)|, start, count, step)
    ensures |Pieces(EncodeAll(cs), start, count, step)| == Announced(EncodeAll(cs), start, count, step)
  {
    if count > 0 {
      SliceExact(cs, start, count - 1, step);
      PieceExact(cs, EncodeAll(cs), Place(start, count - 1, step));
    }
  }

  lemma {:induction false} PiecesApart(source: seq<byte>, start: int, m: nat, n: nat, step: int)
    requires step == 1 || step == -1
    requires InRange(|source|, start, m + n, step)
    ensures InRange(|source|, start, m, step) && InRange(|source|, Place(start, m, step), n, step)
    ensures Pieces(source, start, m + n, step) == Pieces(source, start, m, step) + Pieces(source,
        Place(start, m, step), n, step)
  {
    hide Piece;
    forall i: nat | i < n ensures 0 <= Place(Place(start, m, step), i, step) < |source| {
      assert Place(Place(start, m, step), i, step) == Place(start, m + i, step);
    }
    if n > 0 {
      PiecesApart(source, start, m, n - 1, step);
      assert Place(Place(start, m, step), n - 1, step) == Place(start, m + n - 1, step);
    }
  }

  lemma {:induction false} Joined(length: nat, start: int, m: nat, n: nat, step: int)
    requires step == 1 || step == -1
    requires InRange(length, start, m, step) && InRange(length, start + m * step, n, step)
    ensures InRange(length, start, m + n, step) && Place(start, m, step) == start + m * step
  {
    forall i: nat | i < m + n ensures 0 <= Place(start, i, step) < length {
      if i >= m {
        assert Place(start, i, step) == Place(start + m * step, i - m, step);
      }
    }
  }

  /** A character sliced forwards, or backwards, is itself. */
  lemma {:induction false} CharacterForwards(source: seq<byte>, p: nat, c: nat, rest: seq<byte>, n: nat)
    requires c <= 0x10ffff && p <= |source| && source[p..] == Encode(c) + rest && n <= |Encode(c)|
    ensures InRange(|source|, p, n, 1)
    ensures Pieces(source, p, n, 1) == if n == 0 then [] else Encode(c)
  {
    hide Encode, Piece, DecodeNumBytes;
    assert |source[p..]| == |source| - p;
    if n > 0 {
      CharacterForwards(source, p, c, rest, n - 1);
      OneCharacter(source, p, c, rest, n - 1);
    }
  }

  lemma {:induction false} CharacterBackwards(source: seq<byte>, p: nat, c: nat, rest: seq<byte>, n: nat)
    requires c <= 0x10ffff && p <= |source| && source[p..] == Encode(c) + rest && n <= |Encode(c)|
    ensures var k := |Encode(c)|;
            && InRange(|source|, p + k - 1, n, -1)
            && Pieces(source, p + k - 1, n, -1) == if n == k then Encode(c) else []
  {
    hide Encode, Piece, DecodeNumBytes;
    assert |source[p..]| == |source| - p;
    var k := |Encode(c)|;
    if n > 0 {
      CharacterBackwards(source, p, c, rest, n - 1);
      OneCharacter(source, p, c, rest, k - n);
    }
  }

  /** Slicing from the first byte to the last gives the string back. */
  lemma {:induction false} Forwards(cs: seq<nat>, source: seq<byte>)
    requires CodePoints(cs) && EncodeAll(cs) <= source
    ensures InRange(|source|, 0, |EncodeAll(cs)|, 1)
    ensures Pieces(source, 0, |EncodeAll(cs)|, 1) == EncodeAll(cs)
  {
    hide Encode, EncodeAll, CodePoints, Pieces, InRange, Reverse, Place;
    Nothing(source);
    if cs != [] {
      var cs', c := cs[..|cs| - 1], cs[|cs| - 1];
      var m, k := |EncodeAll(cs')|, |Encode(c)|;
      LastCharacter(cs, source);
      Forwards(cs', source);
      CharacterForwards(source, m, c, source[m + k..], k);
      Joined(|source|, 0, m, k, 1);
      PiecesApart(source, 0, m, k, 1);
      Encoded(c);
    }
  }

  lemma {:induction false} Nothing(source: seq<byte>)
    ensures EncodeAll([]) == [] && Reverse([]) == []
    ensures InRange(|source|, 0, 0, 1) && Pieces(source, 0, 0, 1) == []
    ensures InRange(|source|, -1, 0, -1) && Pieces(source, -1, 0, -1) == []
  {
  }

  lemma {:induction false} Encoded(c: nat)
    requires c <= 0x10ffff
    ensures |Encode(c)| > 0
  {
  }

  /** Slicing from the last byte to the first gives the characters in reverse order, each of them whole. */
  lemma {:induction false} Backwards(cs: seq<nat>, source: seq<byte>)
    requires CodePoints(cs) && EncodeAll(cs) <= source
    ensures var n := |EncodeAll(cs)|;
            InRange(|source|, n - 1, n, -1) && Pieces(source, n - 1, n, -1) == EncodeAll(Reverse(cs))
  {
    hide Encode, EncodeAll, CodePoints, Pieces, InRange, Reverse, Place;
    Nothing(source);
    if cs != [] {
      var cs', c := cs[..|cs| - 1], cs[|cs| - 1];
      var m, k := |EncodeAll(cs')|, |Encode(c)|;
      LastCharacter(cs, source);
      Backwards(cs', source);
      CharacterBackwards(source, m, c, source[m + k..], k);
      Joined(|source|, m + k - 1, k, m, -1);
      PiecesApart(source, m + k - 1, k, m, -1);
      EncodeFront(c, Reverse(cs'));
    }
  }

  lemma {:induction false} EncodeFront(c: nat, cs: seq<nat>)
    ensures EncodeAll([c] + cs) == Encode(c) + EncodeAll(cs)
  {
    hide Encode;
    var all := [c] + cs;
    if cs == [] {
      assert all[..0] == [];
      assert EncodeAll(all) == [] + Encode(c);
    } else {
      var cs', d := cs[..|cs| - 1], cs[|cs| - 1];
      assert all[..|all| - 1] == [c] + cs';
      EncodeFront(c, cs');
      assert EncodeAll(all) == EncodeAll([c] + cs') + Encode(d);
    }
  }

  // ----- Ranges ---------------------------------------------------------------------------------------------

  datatype Range = Range(start: int, count: nat, step: int)

  /** An index from the front, or from the end if negative. */
  function FromEnd(i: int, length: nat): int {
    if i < 0 then length + i else i
  }

  /** The places a range of indices means in a sequence; none if it leaves the sequence. */
  method CalculateRange(from: int, to: int, inclusive: bool, length: nat) returns (r: Option<Range>)
    ensures r.Some? ==> InRange(length, r.value.start, r.value.count, r.value.step)
    ensures from == length && to == (if inclusive then -1 else length) ==> r == Some(Range(0, 0, 0))
    ensures !(from == length && to == (if inclusive then -1 else length)) ==>
              var f, t := if from < 0 then length + from else from, if to < 0 then length + to else to;
              && (r.Some? <==> 0 <= f < length && (if inclusive then 0 <= t < length else -1 <= t <= length))
              && (r.Some? ==>
                    && r.value.start == f
                    && r.value.count == (if f <= t then t - f else f - t) + (if inclusive then 1 else 0)
                    && (r.value.count > 1 ==> r.value.step == if f < t then 1 else -1)
                    && (r.value.count == 1 ==> r.value.step == -1))
  {
    if from == length && to == (if inclusive then -1 else length) {
      return Some(Range(0, 0, 0));
    }
    var f := FromEnd(from, length);
    if !(0 <= f < length) {
      return None;
    }
    var value := FromEnd(to, length);
    if !inclusive {
      if value == f {
        return Some(Range(f, 0, 0));
      }
      value := value + if value >= f then -1 else 1;
    }
    if value < 0 || value >= length {
      return None;
    }
    var count := (if f >= value then f - value else value - f) + 1;
    return Some(Range(f, count, if f < value then 1 else -1));
  }

  /** The range of all bytes, in order. */
  predicate Whole(source: seq<byte>, r: Range) {
    r.count == |source| && (r.count > 0 ==> r.start == 0) && (r.count > 1 ==> r.step == 1)
  }

  lemma {:induction false} OneStep(source: seq<byte>, r: Range)
    requires InRange(|source|, r.start, r.count, r.step) && Whole(source, r)
    ensures InRange(|source|, 0, |source|, 1)
            && Pieces(source, r.start, r.count, r.step) == Pieces(source, 0, |source|, 1)
  {
    if r.count == 1 {
      assert Pieces(source, 0, 0, 1) == [] && Pieces(source, 0, 0, r.step) == [];
      assert Place(0, 0, r.step) == 0 == Place(0, 0, 1);
    }
  }

  lemma {:induction false} NotEmpty(cs: seq<nat>)
    requires CodePoints(cs)
    ensures cs != [] ==> |EncodeAll(cs)| > 0
  {
    hide Encode, EncodeAll, CodePoints, Reverse;
    if cs != [] {
      LastCharacter(cs, EncodeAll(cs));
      assert cs[|cs| - 1] <= 0x10ffff;
      Encoded(cs[|cs| - 1]);
    }
  }

  /** Slices of an encoded string from end to end. */
  lemma {:induction false} WholeSlices(cs: seq<nat>, r: Range)
    requires CodePoints(cs) && InRange(|EncodeAll(cs)|, r.start, r.count, r.step)
    ensures var source := EncodeAll(cs);
            && |Pieces(source, r.start, r.count, r.step)| == Announced(source, r.start, r.count, r.step)
            && (Whole(source, r) ==> Pieces(source, r.start, r.count, r.step) == source)
            && (r == Range(|source| - 1, |source|, -1) ==>
                 Pieces(source, r.start, r.count, r.step) == EncodeAll(Reverse(cs)))
  {
    hide Encode, EncodeAll, Reverse, Pieces, Announced, CodePoints;
    SliceExact(cs, r.start, r.count, r.step);
    Forwards(cs, EncodeAll(cs));
    Backwards(cs, EncodeAll(cs));
    if Whole(EncodeAll(cs), r) {
      OneStep(EncodeAll(cs), r);
    }
  }

  /** The slice of a string, or none. */
  method Subscript(source: seq<byte>, from: int, to: int, inclusive: bool) returns (r: Option<seq<byte>>)
    ensures forall cs :: CodePoints(cs) && source == EncodeAll(cs) && from == 0 && to == -1 && inclusive ==>
              r == Some(source)
    ensures forall cs :: CodePoints(cs) && source == EncodeAll(cs) && cs != [] && from == -1 && to == 0 && inclusive ==>
              r == Some(EncodeAll(Reverse(cs)))
  {
    hide Encode, EncodeAll, Reverse, Pieces, Announced, CodePoints;
    var range := CalculateRange(from, to, inclusive, |source|);
    forall cs | CodePoints(cs) && source == EncodeAll(cs) && inclusive
      ensures from == 0 && to == -1 ==> range.Some? && Whole(source, range.value)
      ensures from == -1 && to == 0 && cs != [] ==> range.Some? && range.value == Range(|source| - 1, |source|, -1)
    {
      NotEmpty(cs);
    }
    if range.None? {
      return None;
    }
    var Range(start, count, step) := range.value;
    var result, filled := FromRange(source, start, count, step);
    r := Some(result[..result.Length]);
    forall cs | CodePoints(cs) && source == EncodeAll(cs)
      ensures result[..result.Length] == Pieces(source, start, count, step)
      ensures Whole(source, range.value) ==> Pieces(source, start, count, step) == source
      ensures range.value == Range(|source| - 1, |source|, -1) ==>
                Pieces(source, start, count, step) == EncodeAll(Reverse(cs))
    {
      WholeSlices(cs, range.value);
    }
  }
}
