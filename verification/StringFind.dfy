/** The search for a string in another one, after Boyer, Moore and Horspool. */
module StringFind {
  import opened Octets

  /** Where the needle was found; or that it was not; or that the search left its table of shifts, which has no
      entry for byte 255. */
  datatype Found = At(index: nat) | Nowhere | OutOfTable

  const U32 := 0x1_0000_0000
  const TABLE := 255

  /** The needle occurs at `i`. */
  predicate Occurs(haystack: seq<byte>, needle: seq<byte>, i: nat) {
    i + |needle| <= |haystack| && haystack[i..i + |needle|] == needle
  }

  /** The distance from the last place byte `c` has in the needle, apart from its end, to the end. */
  function Shift(needle: seq<byte>, c: byte, upto: nat): (d: nat)
    requires upto < |needle|
    ensures 1 <= d <= |needle|
  {
    if upto == 0 then |needle|
    else if needle[upto - 1] == c then |needle| - upto
    else Shift(needle, c, upto - 1)
  }

  /** Up to the shift, the needle does not have the byte at that distance from its end. */
  lemma {:induction false} ShiftSkips(needle: seq<byte>, c: byte, upto: nat, d: nat)
    requires upto < |needle| && |needle| - upto <= d < Shift(needle, c, upto)
    ensures needle[|needle| - 1 - d] != c
  {
    if upto > 0 && needle[upto - 1] != c {
      if d > |needle| - upto {
        ShiftSkips(needle, c, upto - 1, d);
      }
    }
  }

  /** No occurrence is skipped: an occurrence at a place nearer than the shift would have the byte there. */
  lemma {:induction false} NoneSkipped(haystack: seq<byte>, needle: seq<byte>, i: nat, d: nat)
    requires needle != [] && i + |needle| <= |haystack|
    requires 1 <= d < Shift(needle, haystack[i + |needle| - 1], |needle| - 1)
    ensures !Occurs(haystack, needle, i + d)
  {
    var n := |needle|;
    ShiftSkips(needle, haystack[i + n - 1], n - 1, d);
    if i + d + n <= |haystack| {
      assert haystack[i + d..i + d + n][n - 1 - d] == haystack[i + n - 1];
    }
  }

  /** Byte 255 is nowhere where the search would look for it in the table. */
  predicate InTable(haystack: seq<byte>, needle: seq<byte>, start: nat)
    requires needle != []
  {
    && (forall k :: 0 <= k < |needle| - 1 ==> needle[k] != 255)
    && (forall k :: start + |needle| - 1 <= k < |haystack| ==> haystack[k] != 255)
  }

  /** The last byte of the first place the search looks at is 255. */
  predicate EndsIn255(haystack: seq<byte>, needle: seq<byte>, start: nat)
    requires needle != []
  {
    start + |needle| <= |haystack| && haystack[start + |needle| - 1] == 255
  }

  /** The least place, from `start` on, where the needle occurs. */
  method Find(haystack: seq<byte>, needle: seq<byte>, start: nat) returns (r: Found)
    requires |haystack| + |needle| < U32 && start < U32
    ensures needle == [] ==> r == At(start)
    ensures needle != [] && r.At? ==>
              start <= r.index && Occurs(haystack, needle, r.index)
              && forall k :: start <= k < r.index ==> !Occurs(haystack, needle, k)
    ensures needle != [] && r.Nowhere? ==> forall k :: start <= k ==> !Occurs(haystack, needle, k)
    ensures r.OutOfTable? ==> needle != [] && !InTable(haystack, needle, start)
    ensures start + |needle| <= |haystack| && (exists k :: 0 <= k < |needle| - 1 && needle[k] == 255) ==> r.OutOfTable?
    ensures needle != [] && start + |needle| <= |haystack| && haystack[start + |needle| - 1] == 255
            && !Occurs(haystack, needle, start) ==>
              r.OutOfTable?
  {
    if |needle| == 0 {
      return At(start);
    }
    if (start + |needle|) % U32 > |haystack| {
      assert start + |needle| > |haystack|;
      return Nowhere;
    }
    if start >= |haystack| {
      return Nowhere;
    }
    var needleEnd := |needle| - 1;
    var shift := new nat[TABLE](_ => |needle|);
    for index := 0 to needleEnd
      invariant forall c: byte :: c as int < TABLE ==> shift[c as int] == Shift(needle, c, index)
      invariant forall k :: 0 <= k < index ==> needle[k] != 255
    {
      var c := needle[index];
      if c as int >= TABLE {
        return OutOfTable;
      }
      shift[c as int] := needleEnd - index;
    }
    var lastChar := needle[needleEnd];
    var range := |haystack| - |needle|;
    var index := start;
    while index <= range
      invariant start <= index && (index > start ==> !EndsIn255(haystack, needle, start))
      invariant forall k :: start <= k < index ==> !Occurs(haystack, needle, k)
      decreases range + 1 - index
      modifies {}
    {
      var c := haystack[index + needleEnd];
      WholeOrLast(haystack, needle, index);
      if lastChar == c && haystack[index..index + needleEnd] == needle[..needleEnd] {
        return At(index);
      }
      if c as int >= TABLE {
        return OutOfTable;
      }
      assert shift[c as int] == Shift(needle, c, needleEnd);
      forall k | index < k < index + shift[c as int] ensures !Occurs(haystack, needle, k) {
        NoneSkipped(haystack, needle, index, k - index);
      }
      index := index + shift[c as int];
    }
    return Nowhere;
  }

  lemma {:induction false} WholeOrLast(haystack: seq<byte>, needle: seq<byte>, i: nat)
    requires needle != [] && i + |needle| <= |haystack|
    ensures var e := |needle| - 1;
            Occurs(haystack, needle, i) <==> needle[e] == haystack[i + e] && haystack[i..i + e] == needle[..e]
  {
    var e := |needle| - 1;
    assert needle == needle[..e] + [needle[e]];
    assert haystack[i..i + |needle|] == haystack[i..i + e] + [haystack[i + e]];
  }

  /** The promise is broken by byte 255 alone: here the needle is the haystack, and its first byte is 255; and here a
      byte 255 stands before the needle, which is in the haystack too. */
  method OutOfTableWitness() returns (inNeedle: Found, inHaystack: Found)
    ensures inNeedle == inHaystack == OutOfTable
    ensures Occurs([255, 0], [255, 0], 0) && Occurs([0, 255, 0, 0], [0, 0], 2)
  {
    var needle: seq<byte> := [255, 0];
    inNeedle := Find(needle, needle, 0);
    assert needle[0] == 255;
    var haystack: seq<byte> := [0, 255, 0, 0];
    inHaystack := Find(haystack, [0, 0], 0);
    assert haystack[0..2][1] == 255;
  }
}
