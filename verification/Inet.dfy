/** Internet addresses and their text, as libuv writes and reads it. */
module Inet {
  import opened Wrappers
  import opened Octets

  // ----- Digits ---------------------------------------------------------------------------------------------

  function Digit(d: nat): char
    requires d < 16
  {
    if d < 10 then '0' + d as char else 'a' + (d - 10) as char
  }

  function HexValue(c: char): Option<nat> {
    if '0' <= c <= '9' then Some((c - '0') as nat)
    else if 'a' <= c <= 'f' then Some((c - 'a') as nat + 10)
    else if 'A' <= c <= 'F' then Some((c - 'A') as nat + 10)
    else None
  }

  function DecimalValue(c: char): Option<nat> {
    if '0' <= c <= '9' then Some((c - '0') as nat) else None
  }

  lemma {:induction false} DigitValue(d: nat)
    requires d < 16
    ensures HexValue(Digit(d)) == Some(d)
    ensures d < 10 ==> DecimalValue(Digit(d)) == Some(d)
    ensures HexValue(':') == None && HexValue('.') == None && DecimalValue('.') == None
  {
  }

  /** A number in base `b`, without leading zeros. */
  function Numeral(n: nat, b: nat): (s: string)
    requires 2 <= b <= 16
    ensures s != ""
    decreases n
  {
    if n < b then [Digit(n)] else Numeral(n / b, b) + [Digit(n % b)]
  }

  lemma {:induction false} NumeralEnd(n: nat, b: nat, rest: string)
    requires 2 <= b <= 16
    ensures n < b ==> Numeral(n, b) + rest == [Digit(n)] + rest && |Numeral(n, b)| == 1
    ensures n >= b ==> Numeral(n, b) + rest == Numeral(n / b, b) + ([Digit(n % b)] + rest)
    ensures n >= b ==> |Numeral(n, b)| == |Numeral(n / b, b)| + 1
  {
  }

  // ----- Version 4 ------------------------------------------------------------------------------------------

  function Ntop4(a: seq<byte>): string
    requires |a| == 4
  {
    Numeral(a[0] as nat, 10) + "." + Numeral(a[1] as nat, 10) + "." + Numeral(a[2] as nat,
                                                                              10) + "." + Numeral(a[3] as nat, 10)
  }

  /** The octets read so far; `sawDigit` tells whether the last one has begun. */
  datatype State4 = State4(octets: seq<byte>, sawDigit: bool)

  /** The rest of an address. */
  function Parse4(p: State4, src: string): Option<seq<byte>>
    decreases |src|
  {
    if src == "" then (if |p.octets| == 4 then Some(p.octets) else None)
    else
      var d := DecimalValue(src[0]);
      var n := |p.octets|;
      var was := if p.sawDigit && n > 0 then p.octets[n - 1] as nat else 0;
      if d.Some? then
        var value := was * 10 + d.value;
        if (p.sawDigit && was == 0) || value > 255 then None
        else if p.sawDigit && n > 0 then
          Parse4(p.(octets := p.octets[n - 1 := value as byte]), src[1..])
        else if n == 4 then None
        else Parse4(State4(p.octets + [value as byte], true), src[1..])
      else if src[0] == '.' && p.sawDigit then
        if n == 4 then None else Parse4(p.(sawDigit := false), src[1..])
      else None
  }

  function Pton4(src: string): Option<seq<byte>> {
    Parse4(State4([], false), src)
  }

  /** Reading a numeral adds its value. */
  lemma {:induction false} ReadDecimal(octets: seq<byte>, n: nat, rest: string)
    requires n < 256 && |octets| < 4
    ensures Parse4(State4(octets, false), Numeral(n, 10) + rest) == Parse4(State4(octets + [n as byte], true), rest)
    decreases n
  {
    hide Numeral, Digit, DecimalValue;
    DigitValue(n % 10);
    NumeralEnd(n, 10, rest);
    if n < 10 {
      OneDecimal(State4(octets, false), n, rest);
    } else {
      ReadDecimal(octets, n / 10, [Digit(n % 10)] + rest);
      var more := octets + [(n / 10) as byte];
      OneDecimal(State4(more, true), n % 10, rest);
      assert more[|octets| := n as byte] == octets + [n as byte];
    }
  }

  function WithDigit(p: State4, d: nat): seq<byte>
    requires d < 10
    requires p.sawDigit ==> p.octets != [] && p.octets[|p.octets| - 1] as nat * 10 + d < 256
  {
    var n := |p.octets|;
    if p.sawDigit then p.octets[n - 1 := (p.octets[n - 1] as nat * 10 + d) as byte] else p.octets + [d as byte]
  }

  lemma {:induction false} OneDecimal(p: State4, d: nat, rest: string)
    requires d < 10
    requires if p.sawDigit then p.octets != [] && p.octets[|p.octets| - 1] > 0
        && p.octets[|p.octets| - 1] as nat * 10 + d < 256
             else |p.octets| < 4
    ensures Parse4(p, [Digit(d)] + rest) == Parse4(State4(WithDigit(p, d), true), rest)
  {
    DigitValue(d);
    var s := [Digit(d)] + rest;
    assert s[0] == Digit(d) && s[1..] == rest;
  }

  lemma {:induction false} ReadDot(octets: seq<byte>, rest: string)
    requires |octets| < 4
    ensures Parse4(State4(octets, true), "." + rest) == Parse4(State4(octets, false), rest)
  {
    DigitValue(0);
    assert ("." + rest)[1..] == rest;
  }

  lemma {:induction false} RoundTrip4(a: seq<byte>)
    requires |a| == 4
    ensures Pton4(Ntop4(a)) == Some(a)
  {
    hide Numeral, Parse4;
    var n0, n1, n2, n3 := Numeral(a[0] as nat, 10), Numeral(a[1] as nat, 10), Numeral(a[2] as nat, 10),
        Numeral(a[3] as nat, 10);
    var r3 := n3 + "";
    var r2 := n2 + ("." + r3);
    var r1 := n1 + ("." + r2);
    assert Ntop4(a) == n0 + ("." + r1);
    ReadDecimal([], a[0] as nat, "." + r1);
    ReadDot([a[0]], r1);
    ReadDecimal([a[0]], a[1] as nat, "." + r2);
    ReadDot([a[0], a[1]], r2);
    ReadDecimal([a[0], a[1]], a[2] as nat, "." + r3);
    ReadDot([a[0], a[1], a[2]], r3);
    ReadDecimal([a[0], a[1], a[2]], a[3] as nat, "");
    assert [] + [a[0]] == [a[0]] && [a[0]] + [a[1]] == [a[0], a[1]];
    assert [a[0], a[1]] + [a[2]] == [a[0], a[1], a[2]] && [a[0], a[1], a[2]] + [a[3]] == a;
    End4(a);
  }

  lemma {:induction false} End4(a: seq<byte>)
    requires |a| == 4
    ensures Parse4(State4(a, true), "") == Some(a)
  {
  }

  /** These octets with a dot between every two. */
  function Dotted(octets: seq<byte>): string {
    if octets == [] then ""
    else
      var n := |octets| - 1;
      (if n == 0 then "" else Dotted(octets[..n]) + ".") + Numeral(octets[n] as nat, 10)
  }

  /** What has been read so far. */
  function SoFar(p: State4): string {
    Dotted(p.octets) + if p.octets != [] && !p.sawDigit then "." else ""
  }

  /** A text that is read as an address is the one that is written for it. */
  lemma {:induction false} ReadIsWritten(p: State4, src: string, a: seq<byte>)
    requires |p.octets| <= if p.sawDigit then 4 else 3
    requires p.sawDigit ==> p.octets != []
    requires Parse4(p, src) == Some(a)
    ensures |a| == 4 && SoFar(p) + src == Ntop4(a)
    decreases |src|
  {
    hide Numeral, Ntop4, Dotted, SoFar;
    if src == "" {
      WholeSoFar(p);
      return;
    }
    var d := DecimalValue(src[0]);
    var p' := NextState(p, src, a);
    ReadIsWritten(p', src[1..], a);
    if d.Some? {
      DigitSoFar(p, d.value);
    } else {
      DotSoFar(p);
    }
    FirstRead(SoFar(p), src);
  }

  /** A character has been read. */
  lemma {:induction false} NextState(p: State4, src: string, a: seq<byte>) returns (p': State4)
    requires |p.octets| <= (if p.sawDigit then 4 else 3) && (p.sawDigit ==> p.octets != [])
    requires src != "" && Parse4(p, src) == Some(a)
    ensures Parse4(p', src[1..]) == Some(a)
    ensures |p'.octets| <= (if p'.sawDigit then 4 else 3) && (p'.sawDigit ==> p'.octets != [])
    ensures var d := DecimalValue(src[0]);
            if d.Some? then
              && (p.sawDigit ==>
                    0 < p.octets[|p.octets| - 1] && p.octets[|p.octets| - 1] as nat * 10 + d.value < 256)
              && d.value < 10 && p' == State4(WithDigit(p, d.value), true) && src[0] == Digit(d.value)
            else src[0] == '.' && p.sawDigit && p' == p.(sawDigit := false)
  {
    var d := DecimalValue(src[0]);
    p' := if d.Some? then State4(WithDigit(p, d.value), true) else p.(sawDigit := false);
  }

  lemma {:induction false} DotSoFar(p: State4)
    requires p.sawDigit && p.octets != []
    ensures SoFar(p.(sawDigit := false)) == SoFar(p) + "."
  {
    assert Dotted(p.octets) + "" == Dotted(p.octets);
  }

  lemma {:induction false} FirstRead(s: string, src: string)
    requires src != ""
    ensures s + src == (s + [src[0]]) + src[1..]
  {
  }

  lemma {:induction false} WholeSoFar(p: State4)
    requires p.sawDigit && |p.octets| == 4
    ensures SoFar(p) + "" == Ntop4(p.octets)
  {
    hide Dotted, Ntop4;
    DottedFour(p.octets);
    assert Dotted(p.octets) + "" + "" == Dotted(p.octets);
  }

  lemma {:induction false} DigitSoFar(p: State4, d: nat)
    requires d < 10 && (p.sawDigit ==> p.octets != [])
    requires p.sawDigit ==> 0 < p.octets[|p.octets| - 1] && p.octets[|p.octets| - 1] as nat * 10 + d < 256
    ensures SoFar(State4(WithDigit(p, d), true)) == SoFar(p) + [Digit(d)]
  {
    var n := |p.octets|;
    if p.sawDigit {
      var was, more := p.octets[n - 1] as nat, WithDigit(p, d);
      assert more[..n - 1] == p.octets[..n - 1];
      assert Numeral(was * 10 + d, 10) == Numeral(was, 10) + [Digit(d)];
    } else {
      assert (p.octets + [d as byte])[..n] == p.octets;
      assert Numeral(d, 10) == [Digit(d)];
    }
  }

  lemma {:induction false} DottedFour(a: seq<byte>)
    requires |a| == 4
    ensures Dotted(a) == Ntop4(a)
  {
    hide Numeral;
    assert a[..3][..2] == a[..2] && a[..2][..1] == a[..1];
    assert Dotted(a[..1]) == Numeral(a[0] as nat, 10);
    assert Dotted(a[..2]) == Dotted(a[..1]) + "." + Numeral(a[1] as nat, 10);
    assert Dotted(a[..3]) == Dotted(a[..2]) + "." + Numeral(a[2] as nat, 10);
  }

  /** Every address has one text only. */
  lemma {:induction false} OneText4(src: string, a: seq<byte>)
    requires Pton4(src) == Some(a)
    ensures |a| == 4 && src == Ntop4(a)
  {
    ReadIsWritten(State4([], false), src, a);
    assert "" + src == src;
  }

  /** What `OneText4` says of a text there is room for. */
  lemma {:induction false} OnlyText4(a: seq<byte>, text: Option<string>, size: nat)
    requires |a| == 4 && |Ntop4(a)| < size
    requires text.Some? ==> Pton4(text.value) == Some(a)
    requires text.None? ==> forall t :: Pton4(t) == Some(a) ==> |t| >= size
    ensures text == Some(Ntop4(a))
  {
    RoundTrip4(a);
    if text.Some? {
      OneText4(text.value, a);
    }
  }

  // ----- Version 6: the text --------------------------------------------------------------------------------

  predicate Words(words: seq<nat>) {
    |words| == 8 && forall i :: 0 <= i < 8 ==> words[i] < 0x1_0000
  }

  function WordsOf(a: seq<byte>): (w: seq<nat>)
    requires |a| == 16
    ensures Words(w)
  {
    seq(8, i requires 0 <= i < 8 => a[2 * i] as nat * 0x100 + a[2 * i + 1] as nat)
  }

  function BytesOf(words: seq<nat>): (s: seq<byte>)
    requires forall i :: 0 <= i < |words| ==> words[i] < 0x1_0000
    ensures |s| == 2 * |words|
  {
    if words == [] then []
    else BytesOf(words[..|words| - 1]) + [(words[|words| - 1] / 0x100) as byte, (words[|words| - 1] % 0x100) as byte]
  }

  lemma {:induction false} BytesAt(words: seq<nat>, k: nat)
    requires forall i :: 0 <= i < |words| ==> words[i] < 0x1_0000
    requires k < |words|
    ensures BytesOf(words)[2 * k] as nat * 0x100 + BytesOf(words)[2 * k + 1] as nat == words[k]
  {
    if k < |words| - 1 {
      BytesAt(words[..|words| - 1], k);
    }
  }

  /** A run of zero words; none if `base` is -1. */
  datatype Run = Run(base: int, len: nat)

  predicate Zeros(words: seq<nat>, base: int, len: nat) {
    0 <= base && base + len <= |words| && forall i :: base <= i < base + len ==> words[i] == 0
  }

  /** The first of the longest runs of zeros, if that has two words at least. */
  ghost predicate Best(words: seq<nat>, best: Run) {
    if best.base == -1 then forall b: nat, n: nat :: Zeros(words, b, n) ==> n < 2
    else
      && best.len >= 2 && Zeros(words, best.base, best.len)
      && forall b: nat, n: nat :: Zeros(words, b, n) && n > 0 ==> n < best.len || (n == best.len && b >= best.base)
  }

  predicate InRun(best: Run, i: nat) {
    best.base != -1 && best.base <= i < best.base + best.len
  }

  /** Whether the last two words are written as a version 4 address. */
  predicate Embeds4(words: seq<nat>, best: Run)
    requires |words| == 8
  {
    best.base == 0 && (best.len == 6 || (best.len == 7 && words[7] != 1) || (best.len == 5 && words[5] == 0xffff))
  }

  /** What is written for the words from `i` on. */
  function Text(a: seq<byte>, words: seq<nat>, best: Run, i: nat): string
    requires |a| == 16 && |words| == 8 && i <= 8
    decreases 8 - i
  {
    if i == 8 then (if best.base != -1 && best.base + best.len == 8 then ":" else "")
    else if InRun(best, i) then (if i == best.base then ":" else "") + Text(a, words, best, i + 1)
    else (if i != 0 then ":" else "") +
         if i == 6 && Embeds4(words, best) then Ntop4(a[12..16])
         else Numeral(words[i], 16) + Text(a, words, best, i + 1)
  }

  // ----- Version 6: reading ---------------------------------------------------------------------------------

  /** The bytes read; where among them the zeros left out belong; the word being read, and its digits so far. */
  datatype State6 = State6(out: seq<byte>, colon: Option<nat>, val: nat, seen: nat)

  predicate ColonOk(p: State6) {
    p.colon.Some? ==> p.colon.value <= |p.out|
  }

  function High(val: nat): byte { (val / 0x100 % 0x100) as byte }

  function Low(val: nat): byte { (val % 0x100) as byte }

  /** The state at the end of the text; `token` is the text from the last separator on. */
  function Parse6(p: State6, token: string, src: string): (r: Option<State6>)
    requires ColonOk(p)
    ensures r.Some? ==> ColonOk(r.value)
    decreases |src|
  {
    if src == "" then Some(p)
    else
      var d := HexValue(src[0]);
      var rest := src[1..];
      if d.Some? then
        if p.seen == 4 then None
        else Parse6(p.(val := p.val * 0x10 + d.value, seen := p.seen + 1), token, rest)
      else if src[0] == ':' then
        if p.seen == 0 then
          if p.colon.Some? then None else Parse6(p.(colon := Some(|p.out|)), rest, rest)
        else if rest == "" || |p.out| + 2 > 16 then None
        else Parse6(State6(p.out + [High(p.val), Low(p.val)], p.colon, 0, 0), rest, rest)
      else if src[0] == '.' && |p.out| + 4 <= 16 then
        match Pton4(token)
        case Some(octets) => Some(p.(out := p.out + octets, seen := 0))
        case None => None
      else None
  }

  /** The last word, and the zeros that "::" stands for. */
  function Finish6(p: State6): Option<seq<byte>>
    requires ColonOk(p)
  {
    if p.seen > 0 && |p.out| + 2 > 16 then None
    else
      var out := if p.seen > 0 then p.out + [High(p.val), Low(p.val)] else p.out;
      if p.colon.None? then (if |out| == 16 then Some(out) else None)
      else if |out| >= 16 then None
      else Some(out[..p.colon.value] + seq(16 - |out|, _ => 0 as byte) + out[p.colon.value..])
  }

  function Pton6(src: string): Option<seq<byte>> {
    if src != "" && src[0] == ':' && !(|src| > 1 && src[1] == ':') then None
    else
      var s := if src != "" && src[0] == ':' then src[1..] else src;
      match Parse6(State6([], None, 0, 0), s, s)
      case None => None
      case Some(p) => Finish6(p)
  }

  // ----- The round trip -------------------------------------------------------------------------------------

  /** Reading a numeral adds its digits to the word. */
  lemma {:induction false} ReadHex(p: State6, n: nat, bound: nat, digits: nat, token: string, rest: string)
    requires p.val == 0 && p.seen == 0 && ColonOk(p)
    requires n < bound && HexBound(bound, digits) && 1 <= digits <= 4
    ensures 0 < |Numeral(n, 16)| <= digits
    ensures Parse6(p, token, Numeral(n, 16) + rest) == Parse6(p.(val := n, seen := |Numeral(n, 16)|), token, rest)
    decreases n
  {
    hide Numeral, Digit;
    NumeralEnd(n, 16, rest);
    if n < 16 {
      OneHex(p, n, token, rest);
    } else {
      ReadHex(p, n / 16, bound / 16, digits - 1, token, [Digit(n % 16)] + rest);
      OneHex(p.(val := n / 16, seen := |Numeral(n / 16, 16)|), n % 16, token, rest);
    }
  }

  lemma {:induction false} OneHex(p: State6, d: nat, token: string, rest: string)
    requires d < 16 && p.seen < 4 && ColonOk(p)
    ensures Parse6(p, token, [Digit(d)] + rest) == Parse6(p.(val := p.val * 0x10 + d, seen := p.seen + 1), token, rest)
  {
    DigitValue(d);
    var s := [Digit(d)] + rest;
    assert s[0] == Digit(d) && s[1..] == rest;
  }

  /** Numbers below `bound` have at most so many digits. */
  predicate HexBound(bound: nat, digits: nat) {
    if digits == 0 then bound <= 1 else bound % 16 == 0 && HexBound(bound / 16, digits - 1)
  }

  function Push(out: seq<byte>, w: nat): seq<byte> {
    out + [High(w), Low(w)]
  }

  /** The bytes of the words before `k` that are written, not left out. */
  function Packed(words: seq<nat>, best: Run, k: nat): (s: seq<byte>)
    requires k <= |words|
    ensures |s| <= 2 * k
  {
    if k == 0 then [] else if InRun(best, k - 1) then Packed(words, best, k - 1) else Push(Packed(words, best, k - 1),
                                                                                           words[k - 1])
  }

  function ColonAt(best: Run, k: nat): Option<nat> {
    if 0 <= best.base && best.base + best.len <= k then Some(2 * best.base) else None
  }

  /** What has been read when the text from word `k` on is still ahead. */
  function After(words: seq<nat>, best: Run, k: nat): State6
    requires 0 < k <= |words|
  {
    if InRun(best, k - 1) then State6(Packed(words, best, k), None, 0, 0)
    else State6(Packed(words, best, k - 1), ColonAt(best, k - 1), words[k - 1], |Numeral(words[k - 1], 16)|)
  }

  /** All is read that was written. */
  predicate Complete(words: seq<nat>, best: Run, p: State6)
    requires |words| == 8
  {
    && (if p.seen > 0 then |p.out| <= 14 && Push(p.out, p.val) == Packed(words, best, 8) else p.out == Packed(words,
                                                                                                              best, 8))
    && p.colon == ColonAt(best, 8)
  }

  predicate Fits(best: Run) {
    best.base == -1 || (0 <= best.base && 2 <= best.len && best.base + best.len <= 8)
  }

  /** Up to the run the bytes of all words are packed; after it, those but the run's. */
  lemma {:induction false} PackedSize(words: seq<nat>, best: Run, k: nat)
    requires |words| == 8 && k <= 8 && Fits(best)
    ensures |Packed(words, best, k)| ==
            if best.base == -1
              || k <= best.base then 2 * k else if k <= best.base + best.len then 2 * best.base else 2 * (k - best.len)
  {
    if k > 0 {
      PackedSize(words, best, k - 1);
    }
  }

  lemma {:induction false} AfterOk(words: seq<nat>, best: Run, k: nat)
    requires Words(words) && 0 < k <= 8 && Fits(best)
    ensures ColonOk(After(words, best, k))
    ensures |After(words, best, k).out| <= 14
    ensures !InRun(best, k - 1) ==> 0 < After(words, best, k).seen <= 4
  {
    PackedSize(words, best, k);
    PackedSize(words, best, k - 1);
    ReadHex(State6([], None, 0, 0), words[k - 1], 0x1_0000, 4, "", "");
  }

  /** Reading the separator before word `k`, and the word. */
  lemma {:induction false} ReadColon(words: seq<nat>, best: Run, k: nat, token: string, rest: string)
    requires Words(words) && 0 < k < 8 && Fits(best) && !InRun(best, k) && rest != ""
    ensures var p := State6(Packed(words, best, k), ColonAt(best, k), 0, 0);
            ColonOk(p) && ColonOk(After(words, best, k))
              && Parse6(After(words, best, k), token, ":" + rest) == Parse6(p, rest, rest)
  {
    AfterOk(words, best, k);
    PackedSize(words, best, k);
    DigitValue(0);
    assert (":" + rest)[0] == ':' && (":" + rest)[1..] == rest;
  }

  lemma {:induction false} ReadWord(words: seq<nat>, best: Run, k: nat, token: string, rest: string)
    requires Words(words) && k < 8 && Fits(best) && !InRun(best, k)
    ensures var p := State6(Packed(words, best, k), ColonAt(best, k), 0, 0);
            && ColonOk(p) && ColonOk(After(words, best, k + 1))
            && Parse6(p, token, Numeral(words[k], 16) + rest) == Parse6(After(words, best, k + 1), token, rest)
  {
    PackedSize(words, best, k);
    AfterOk(words, best, k + 1);
    ReadHex(State6(Packed(words, best, k), ColonAt(best, k), 0, 0), words[k], 0x1_0000, 4, token, rest);
  }

  /** Reading a version 4 address at the end. */
  lemma {:induction false} Read4(p: State6, octets: seq<byte>)
    requires p.seen == 0 && p.val == 0 && ColonOk(p) && |octets| == 4 && |p.out| + 4 <= 16
    ensures var s := Ntop4(octets);
            var r := Parse6(p, s, s);
            r.Some? && r.value.out == p.out + octets && r.value.colon == p.colon && r.value.seen == 0
  {
    hide Numeral;
    var s := Ntop4(octets);
    RoundTrip4(octets);
    var rest := Numeral(octets[1] as nat, 10) + "." + Numeral(octets[2] as nat, 10) + "." + Numeral(octets[3] as nat,
                                                                                                    10);
    assert s == Numeral(octets[0] as nat, 10) + ("." + rest);
    var n := octets[0] as nat;
    ReadDecimalAsHex(p, n, if n < 10 then 1 else if n < 100 then 2 else 3, s, "." + rest);
    DigitValue(0);
    assert ("." + rest)[0] == '.';
  }

  function AsHex(n: nat): nat {
    if n < 10 then n else AsHex(n / 10) * 16 + n % 10
  }

  lemma {:induction false} ReadDecimalAsHex(p: State6, n: nat, digits: nat, token: string, rest: string)
    requires p.val == 0 && p.seen == 0 && ColonOk(p)
    requires 1 <= digits <= 3 && n < (if digits == 1 then 10 else if digits == 2 then 100 else 1000)
    ensures 0 < |Numeral(n, 10)| <= digits
    ensures Parse6(p, token, Numeral(n, 10) + rest) == Parse6(p.(val := AsHex(n), seen := |Numeral(n, 10)|), token,
                                                              rest)
    decreases n
  {
    hide Numeral, Digit;
    NumeralEnd(n, 10, rest);
    if n < 10 {
      OneHex(p, n, token, rest);
    } else {
      ReadDecimalAsHex(p, n / 10, digits - 1, token, [Digit(n % 10)] + rest);
      OneHex(p.(val := AsHex(n / 10), seen := |Numeral(n / 10, 10)|), n % 10, token, rest);
    }
  }

  lemma {:induction false} TextNotEmpty(a: seq<byte>, words: seq<nat>, best: Run, k: nat)
    requires |a| == 16 && Words(words) && 0 < k <= 8 && Fits(best) && (k == 8 ==> InRun(best, 7))
    ensures Text(a, words, best, k) != "" && (InRun(best, k - 1) ==> Text(a, words, best, k)[0] == ':')
    decreases 8 - k
  {
    if k < 8 && InRun(best, k) {
      TextNotEmpty(a, words, best, k + 1);
    }
  }

  /** From word `k` on, what is read is what was written. */
  lemma {:induction false} ReadText(a: seq<byte>, best: Run, k: nat, token: string)
    requires |a| == 16 && Fits(best) && 0 < k <= 8
    ensures var words := WordsOf(a);
            && ColonOk(After(words, best, k))
            && var r := Parse6(After(words, best, k), token, Text(a, words, best, k));
               r.Some? && Complete(words, best, r.value)
    decreases 8 - k
  {
    hide Numeral, Ntop4, Packed, Parse6;
    var words := WordsOf(a);
    AfterOk(words, best, k);
    if k == 8 {
      ReadEnd(a, best, token);
    } else if InRun(best, k) {
      if k == best.base {
        TextNotEmpty(a, words, best, k + 1);
        ReadRun(words, best, token, Text(a, words, best, k + 1));
        ReadText(a, best, k + 1, Text(a, words, best, k + 1));
      } else {
        PackedStep(words, best, k);
        assert Text(a, words, best, k) == Text(a, words, best, k + 1);
        ReadText(a, best, k + 1, token);
      }
    } else if k == 6 && Embeds4(words, best) {
      var rest := Ntop4(a[12..16]);
      NotEmpty4(a[12..16]);
      assert Text(a, words, best, k) == ":" + rest;
      ReadColon(words, best, 6, token, rest);
      Read4(State6(Packed(words, best, 6), ColonAt(best, 6), 0, 0), a[12..16]);
      LastWords(a, best);
    } else {
      var more := Text(a, words, best, k + 1);
      var rest := Numeral(words[k], 16) + more;
      NumeralEnd(words[k], 16, more);
      assert Text(a, words, best, k) == ":" + rest;
      ReadColon(words, best, k, token, rest);
      ReadWord(words, best, k, rest, more);
      ReadText(a, best, k + 1, rest);
    }
  }

  lemma {:induction false} PackedStep(words: seq<nat>, best: Run, k: nat)
    requires |words| == 8 && k < 8
    ensures InRun(best, k) ==> Packed(words, best, k + 1) == Packed(words, best, k)
    ensures InRun(best, k) && k > 0 && InRun(best, k - 1) ==> After(words, best, k) == After(words, best, k + 1)
  {
  }

  lemma {:induction false} NotEmpty4(a: seq<byte>)
    requires |a| == 4
    ensures Ntop4(a) != ""
  {
  }

  /** The run begins after a word: its first separator ends the word. */
  lemma {:induction false} ReadRun(words: seq<nat>, best: Run, token: string, rest: string)
    requires Words(words) && Fits(best) && 0 < best.base < 8 && rest != ""
    ensures var k := best.base;
            && ColonOk(After(words, best, k)) && ColonOk(After(words, best, k + 1))
            && Parse6(After(words, best, k), token, ":" + rest) == Parse6(After(words, best, k + 1), rest, rest)
  {
    hide Numeral;
    AfterOk(words, best, best.base);
    AfterOk(words, best, best.base + 1);
    PackedStep(words, best, best.base);
    DigitValue(0);
    var k := best.base;
    var p, s := After(words, best, k), ":" + rest;
    assert s[0] == ':' && s[1..] == rest;
    assert !InRun(best, k - 1) && InRun(best, k);
    assert p == State6(Packed(words, best, k - 1), None, words[k - 1], |Numeral(words[k - 1], 16)|);
    assert Packed(words, best, k) == Push(p.out, p.val);
    assert After(words, best, k + 1) == State6(Push(p.out, p.val), None, 0, 0);
  }

  lemma {:induction false} ReadEnd(a: seq<byte>, best: Run, token: string)
    requires |a| == 16 && Fits(best)
    ensures var words := WordsOf(a);
            && ColonOk(After(words, best, 8))
            && var r := Parse6(After(words, best, 8), token, Text(a, words, best, 8));
               r.Some? && Complete(words, best, r.value)
  {
    hide Numeral;
    var words := WordsOf(a);
    AfterOk(words, best, 8);
    PackedSize(words, best, 8);
    DigitValue(0);
    var p := After(words, best, 8);
    if InRun(best, 7) {
      assert ":"[0] == ':' && ":"[1..] == "";
      var q := p.(colon := Some(|p.out|));
      assert Parse6(p, token, ":") == Parse6(q, "", "") == Some(q);
      assert Text(a, words, best, 8) == ":";
      assert Complete(words, best, q);
    } else {
      assert Text(a, words, best, 8) == "";
      assert Packed(words, best, 8) == Push(p.out, words[7]);
      assert Complete(words, best, p);
      assert Parse6(p, token, "") == Some(p);
    }
  }

  lemma {:induction false} LastWords(a: seq<byte>, best: Run)
    requires |a| == 16 && !InRun(best, 6) && !InRun(best, 7)
    ensures Packed(WordsOf(a), best, 8) == Packed(WordsOf(a), best, 6) + a[12..16]
  {
    hide WordsOf, InRun, High, Low, Push;
    var words := WordsOf(a);
    var p := Packed(words, best, 6);
    assert Packed(words, best, 7) == Push(p, words[6]);
    assert Packed(words, best, 8) == Push(Packed(words, best, 7), words[7]);
    PushedWord(a, 6, p);
    PushedWord(a, 7, p + [a[12], a[13]]);
    LastFour(a, p);
  }

  lemma {:induction false} LastFour(a: seq<byte>, p: seq<byte>)
    requires |a| == 16
    ensures (p + [a[12], a[13]]) + [a[14], a[15]] == p + a[12..16]
  {
    assert a[12..16] == [a[12], a[13]] + [a[14], a[15]];
  }

  /** The bytes of a word are those it was made of. */
  lemma {:induction false} PushedWord(a: seq<byte>, k: nat, out: seq<byte>)
    requires |a| == 16 && k < 8
    ensures Push(out, WordsOf(a)[k]) == out + [a[2 * k], a[2 * k + 1]]
  {
    var w := WordsOf(a)[k];
    assert w == a[2 * k] as nat * 0x100 + a[2 * k + 1] as nat;
    assert High(w) == a[2 * k] && Low(w) == a[2 * k + 1];
  }

  // ----- The whole address ----------------------------------------------------------------------------------

  lemma {:induction false} PackedIs(a: seq<byte>, best: Run, k: nat)
    requires |a| == 16 && Fits(best) && k <= 8
    ensures best.base == -1 || k <= best.base ==> Packed(WordsOf(a), best, k) == a[..2 * k]
    ensures best.base != -1 && best.base < k <= best.base + best.len ==>
              Packed(WordsOf(a), best, k) == a[..2 * best.base]
    ensures best.base != -1 && best.base + best.len <= k ==>
              Packed(WordsOf(a), best, k) == a[..2 * best.base] + a[2 * (best.base + best.len)..2 * k]
  {
    hide WordsOf, High, Low, Push;
    if k > 0 {
      PackedIs(a, best, k - 1);
      PushedWord(a, k - 1, Packed(WordsOf(a), best, k - 1));
      var e := 2 * (best.base + best.len);
      TwoMore(a, 0, k - 1);
      if 0 <= best.base && e <= 2 * (k - 1) {
        TwoMore(a, e, k - 1);
        Apart3(a[..2 * best.base], a[e..2 * (k - 1)], [a[2 * k - 2], a[2 * k - 1]]);
      }
    }
  }

  lemma {:induction false} TwoMore(a: seq<byte>, e: nat, k: nat)
    requires |a| == 16 && e <= 2 * k < 16
    ensures a[e..2 * k + 2] == a[e..2 * k] + [a[2 * k], a[2 * k + 1]]
  {
  }

  lemma {:induction false} Apart3(a: seq<byte>, b: seq<byte>, c: seq<byte>)
    ensures (a + b) + c == a + (b + c)
  {
  }

  /** What was left out is put back. */
  lemma {:induction false} Restored(a: seq<byte>, best: Run, p: State6)
    requires |a| == 16 && Fits(best) && Complete(WordsOf(a), best, p) && ColonOk(p)
    requires best.base != -1 ==> Zeros(WordsOf(a), best.base, best.len)
    ensures Finish6(p) == Some(a)
  {
    hide Packed;
    var words := WordsOf(a);
    PackedIs(a, best, 8);
    PackedSize(words, best, 8);
    assert a[..16] == a;
    if best.base != -1 {
      var b, e := 2 * best.base, 2 * (best.base + best.len);
      forall i | b <= i < e ensures a[i] == 0 {
        assert words[i / 2] == 0;
      }
      hide WordsOf, Packed, Zeros;
      PutBack(a, b, e);
    }
  }

  lemma {:induction false} PutBack(a: seq<byte>, b: nat, e: nat)
    requires |a| == 16 && b <= e <= 16 && forall i :: b <= i < e ==> a[i] == 0
    ensures var out := a[..b] + a[e..16]; out[..b] + seq(16 - |out|, _ => 0 as byte) + out[b..] == a
  {
    var out := a[..b] + a[e..16];
    assert out[..b] == a[..b] && out[b..] == a[e..16];
    assert a[b..e] == seq(16 - |out|, _ => 0 as byte);
  }

  /** Reading the text of any address gives the address. */
  lemma {:induction false} RoundTrip6(a: seq<byte>, best: Run)
    requires |a| == 16 && Fits(best)
    requires best.base != -1 ==> Zeros(WordsOf(a), best.base, best.len)
    ensures Pton6(Text(a, WordsOf(a), best, 0)) == Some(a)
  {
    hide Numeral, Parse6, Packed, Finish6;
    var words := WordsOf(a);
    var more := Text(a, words, best, 1);
    var start := State6([], None, 0, 0);
    if InRun(best, 0) {
      TextNotEmpty(a, words, best, 1);
      assert Text(a, words, best, 0) == ":" + more;
      assert (":" + more)[0] == ':' && (":" + more)[1] == ':' && (":" + more)[1..] == more;
      PackedStart(words, best);
      ReadText(a, best, 1, more);
    } else {
      var s := Numeral(words[0], 16) + more;
      assert Text(a, words, best, 0) == s by { assert "" + s == s; }
      FirstDigit(words[0], more);
      PackedStart(words, best);
      ReadWord(words, best, 0, s, more);
      ReadText(a, best, 1, s);
    }
    var s := if InRun(best, 0) then more else Numeral(words[0], 16) + more;
    var p := Parse6(start, s, s);
    assert p.Some? && Complete(words, best, p.value);
    assert Pton6(Text(a, words, best, 0)) == Finish6(p.value);
    Restored(a, best, p.value);
  }

  lemma {:induction false} PackedStart(words: seq<nat>, best: Run)
    requires Words(words) && Fits(best)
    ensures Packed(words, best, 0) == [] && ColonAt(best, 0) == None
    ensures InRun(best, 0) ==> After(words, best, 1) == State6([], None, 0, 0)
  {
  }

  lemma {:induction false} FirstDigit(n: nat, rest: string)
    ensures (Numeral(n, 16) + rest)[0] != ':'
  {
    if n >= 16 {
      FirstDigit(n / 16, [Digit(n % 16)] + rest);
      NumeralEnd(n, 16, rest);
    }
  }

  // ----- Writing --------------------------------------------------------------------------------------------

  const INET_ADDRSTRLEN := 16
  const INET6_ADDRSTRLEN := 46

  lemma {:induction false} HexLength(n: nat)
    requires n < 0x1_0000
    ensures 0 < |Numeral(n, 16)| <= 4
  {
    ReadHex(State6([], None, 0, 0), n, 0x1_0000, 4, "", "");
  }

  lemma {:induction false} DecimalLength(n: nat)
    requires n < 256
    ensures 0 < |Numeral(n, 10)| <= 3
  {
    ReadDecimalAsHex(State6([], None, 0, 0), n, 3, "", "");
  }

  lemma {:induction false} Length4(a: seq<byte>)
    requires |a| == 4
    ensures 0 < |Ntop4(a)| < INET_ADDRSTRLEN
  {
    hide Numeral;
    DecimalLength(a[0] as nat);
    DecimalLength(a[1] as nat);
    DecimalLength(a[2] as nat);
    DecimalLength(a[3] as nat);
  }

  /** How long the text from word `k` on can be. */
  lemma {:induction false} TextLength(a: seq<byte>, words: seq<nat>, best: Run, k: nat)
    requires |a| == 16 && Words(words) && Fits(best) && k <= 8
    ensures |Text(a, words, best, k)| <= (if k == 0 then 39 else 5 * (8 - k)) + if Embeds4(words,
        best) then 6 else if best.base != -1 then 1 else 0
    decreases 8 - k
  {
    hide Numeral, Ntop4;
    if k < 8 {
      TextLength(a, words, best, k + 1);
      HexLength(words[k]);
      Length4(a[12..16]);
    }
  }

  /** A text that is read as the version 4 address, if one is shorter than `size`. */
  method InetNtop4(src: seq<byte>, size: nat) returns (r: Option<string>)
    requires |src| == 4
    ensures r.Some? ==> Pton4(r.value) == Some(src) && |r.value| < size
    ensures r.None? ==> forall text :: Pton4(text) == Some(src) ==> |text| >= size
  {
    hide Pton4, Ntop4;
    Length4(src);
    RoundTrip4(src);
    forall text | Pton4(text) == Some(src) ensures text == Ntop4(src) {
      OneText4(text, src);
    }
    var tmp := Ntop4(src);
    if |tmp| <= 0 || |tmp| >= size {
      return None;
    }
    return Some(tmp);
  }

  /** The runs of zeros in the first `end` words are no longer than `best`, nor as long and before it. */
  ghost predicate BestBefore(words: seq<nat>, best: Run, end: int) {
    && (best.base != -1 ==> best.len >= 1 && Zeros(words, best.base, best.len) && best.base + best.len <= end)
    && forall b: nat, n: nat :: Zeros(words, b, n) && n > 0 && b + n <= end ==>
         best.base != -1 && (n < best.len || (n == best.len && b >= best.base))
  }

  /** The run that ends at `i`, as long as it is. */
  predicate Current(words: seq<nat>, cur: Run, i: nat)
    requires i <= |words|
  {
    if cur.base == -1 then i > 0 ==> words[i - 1] != 0
    else
      && 0 <= cur.base < i && cur.len == i - cur.base && Zeros(words, cur.base, cur.len)
      && (cur.base > 0 ==> words[cur.base - 1] != 0)
  }

  /** A run either ends before the current one or is part of it. */
  lemma {:induction false} RunEnds(words: seq<nat>, best: Run, cur: Run, i: nat)
    requires i <= |words| && Current(words, cur, i) && BestBefore(words, best, if cur.base == -1 then i else cur.base)
    ensures BestBefore(words, if cur.base != -1 && (best.base == -1 || cur.len > best.len) then cur else best, i)
  {
    var best' := if cur.base != -1 && (best.base == -1 || cur.len > best.len) then cur else best;
    if cur.base != -1 {
      forall b: nat, n: nat | Zeros(words, b, n) && n > 0 && b + n <= i
        ensures best'.base != -1 && (n < best'.len || (n == best'.len && b >= best'.base))
      {
        if b + n > cur.base {
          assert b >= cur.base;
        }
      }
    }
  }

  /** The first of the longest runs of zeros. */
  method BestRun(words: seq<nat>) returns (best: Run)
    requires |words| == 8
    ensures Best(words, best) && Fits(best)
  {
    best := Run(-1, 0);
    var cur := Run(-1, 0);
    for i := 0 to |words|
      invariant Current(words, cur, i)
      invariant BestBefore(words, best, if cur.base == -1 then i else cur.base)
      invariant best.base >= -1
    {
      if words[i] == 0 {
        if cur.base == -1 {
          cur := Run(i, 1);
        } else {
          cur := cur.(len := cur.len + 1);
        }
      } else {
        RunEnds(words, best, cur, i);
        if cur.base != -1 {
          if best.base == -1 || cur.len > best.len {
            best := cur;
          }
          cur := cur.(base := -1);
        }
        assert BestBefore(words, best, i + 1) by {
          forall b: nat, n: nat | Zeros(words, b, n) && n > 0 && b + n <= i + 1 ensures b + n <= i {
          }
        }
      }
    }
    RunEnds(words, best, cur, |words|);
    if cur.base != -1 {
      if best.base == -1 || cur.len > best.len {
        best := cur;
      }
    }
    ghost var longest := best;
    if best.base != -1 && best.len < 2 {
      best := best.(base := -1);
    }
    assert forall b: nat, n: nat :: Zeros(words, b, n) && n > 0 ==> b + n <= 8;
  }

  /** The words of an address, two bytes each. */
  method ToWords(src: seq<byte>) returns (words: seq<nat>)
    requires |src| == 16
    ensures words == WordsOf(src)
  {
    var w := new nat[8](_ => 0);
    for i := 0 to 16
      invariant forall k :: 0 <= k < 8 ==>
                  w[k] == (if 2 * k < i then src[2 * k] as nat * 0x100 else 0) + (if 2 * k + 1 < i then
                      src[2 * k + 1] as nat else 0)
    {
      w[i / 2] := w[i / 2] + src[i] as nat * (if i % 2 == 0 then 0x100 else 1);
    }
    words := w[..];
  }

  /** What has been written, and what is written next. */
  lemma {:induction false} TextStep(tp: string, src: seq<byte>, words: seq<nat>, best: Run, i: nat)
    requires |src| == 16 && |words| == 8 && i < 8
    ensures var colon := if i != 0 then ":" else "";
            var ahead := tp + Text(src, words, best, i);
            if InRun(best, i) then ahead == (tp + if i == best.base then ":" else "") + Text(src, words, best, i + 1)
            else if i == 6 && Embeds4(words, best) then ahead == (tp + ":") + Ntop4(src[12..16])
            else ahead == ((tp + colon) + Numeral(words[i], 16)) + Text(src, words, best, i + 1)
    ensures tp + "" == tp
  {
    hide Numeral, Ntop4;
    var colon := if i != 0 then ":" else "";
    Joined(tp, if i == best.base then ":" else "", Text(src, words, best, i + 1));
    Joined(tp, ":", Ntop4(src[12..16]));
    Joined(tp, colon, Numeral(words[i], 16) + Text(src, words, best, i + 1));
    Joined(tp + colon, Numeral(words[i], 16), Text(src, words, best, i + 1));
  }

  /** The words in hexadecimal, the run of zeros as "::", and perhaps the last two words as a version 4 address. */
  method Format(src: seq<byte>, words: seq<nat>, best: Run) returns (tp: string)
    requires |src| == 16 && words == WordsOf(src) && Fits(best)
    ensures tp == Text(src, words, best, 0) && |tp| < INET6_ADDRSTRLEN
  {
    hide Numeral, Ntop4, Pton4, WordsOf, Text, Embeds4, InRun, Fits;
    TextLength(src, words, best, 0);
    tp := "";
    var i := 0;
    ghost var text := Text(src, words, best, 0);
    ghost var done := false;
    Joined("", "", text);
    while i < 8
      invariant i <= 8 && !done && tp + Text(src, words, best, i) == text
    {
      TextStep(tp, src, words, best, i);
      if InRun(best, i) {
        if i == best.base {
          tp := tp + ":";
        }
        i := i + 1;
        continue;
      }
      if i != 0 {
        tp := tp + ":";
      }
      if i == 6 && Embeds4(words, best) {
        assert |tp| + |Ntop4(src[12..16])| == |text|;
        var dotted := InetNtop4(src[12..16], INET6_ADDRSTRLEN - |tp|);
        OnlyText4(src[12..16], dotted, INET6_ADDRSTRLEN - |tp|);
        tp := tp + dotted.value;
        done := true;
        SixOrFive(words, best);
        break;
      }
      tp := tp + Numeral(words[i], 16);
      i := i + 1;
    }
    TextEnd(src, words, best);
    if best.base != -1 && best.base + best.len == 8 {
      tp := tp + ":";
    }
  }

  /** Only five or six zero words make room for a version 4 address: with seven the place for it is among them, and
      that case of `Embeds4` never comes up. */
  lemma {:induction false} SixOrFive(words: seq<nat>, best: Run)
    requires |words| == 8 && Embeds4(words, best)
    ensures !InRun(best, 6) <==> best.len == 5 || best.len == 6
    ensures !InRun(best, 6) ==> best.base + best.len < 8
  {
  }

  lemma {:induction false} TextEnd(src: seq<byte>, words: seq<nat>, best: Run)
    requires |src| == 16 && |words| == 8
    ensures Text(src, words, best, 8) == if best.base != -1 && best.base + best.len == 8 then ":" else ""
  {
  }

  lemma {:induction false} Joined(a: string, b: string, c: string)
    ensures a + (b + c) == (a + b) + c && a + "" == a && "" + c == c
  {
  }

  /** The text that leaves out the run `best`, always shorter than the buffer it is made in, if it is also shorter than
      `size`. */
  predicate WrittenAs(src: seq<byte>, best: Run, size: nat, r: Option<string>)
    requires |src| == 16
  {
    var text := Text(src, WordsOf(src), best, 0);
    |text| < INET6_ADDRSTRLEN && r == if |text| < size then Some(text) else None
  }

  /** The text of a version 6 address, if it fits into `size` characters with its end mark. */
  method InetNtop6(src: seq<byte>, size: nat) returns (r: Option<string>)
    requires |src| == 16
    ensures exists best :: Best(WordsOf(src), best) && Fits(best) && WrittenAs(src, best, size, r)
  {
    var words := ToWords(src);
    var best := BestRun(words);
    var tp := Format(src, words, best);
    r := if |tp| + 1 > size then None else Some(tp);
  }

  // ----- Reading --------------------------------------------------------------------------------------------

  /** The address a text of version 4 names. */
  method InetPton4(src: string) returns (r: Option<seq<byte>>)
    ensures r == Pton4(src)
  {
    var sawDigit := false;
    var tmp: seq<byte> := [];
    var i := 0;
    assert src[0..] == src;
    while i < |src|
      invariant i <= |src| && (sawDigit ==> tmp != []) && |tmp| <= 4
      invariant Parse4(State4(tmp, sawDigit), src[i..]) == Pton4(src)
    {
      assert src[i..][0] == src[i] && src[i..][1..] == src[i + 1..];
      var d := DecimalValue(src[i]);
      if d.Some? {
        var was := if sawDigit then tmp[|tmp| - 1] as nat else 0;
        var nw := was * 10 + d.value;
        if sawDigit && was == 0 {
          return None;
        }
        if nw > 255 {
          return None;
        }
        if sawDigit {
          tmp := tmp[|tmp| - 1 := nw as byte];
        } else {
          if |tmp| == 4 {
            return None;
          }
          tmp := tmp + [nw as byte];
          sawDigit := true;
        }
      } else if src[i] == '.' && sawDigit {
        if |tmp| == 4 {
          return None;
        }
        sawDigit := false;
      } else {
        return None;
      }
      i := i + 1;
    }
    if |tmp| < 4 {
      return None;
    }
    return Some(tmp);
  }

  /** Bytes from `colonp` on move to the end of the buffer, and zeros take their places. */
  method Expand(tmp: array<byte>, colonp: nat, tp: nat)
    requires tmp.Length == 16 && colonp <= tp < 16 && forall k :: tp <= k < 16 ==> tmp[k] == 0
    modifies tmp
    ensures tmp[..] == old(tmp[..colonp]) + seq(16 - tp, _ => 0 as byte) + old(tmp[colonp..tp])
  {
    var n := tp - colonp;
    for i := 1 to n + 1
      invariant forall k :: 0 <= k < tp - i + 1 ==> tmp[k] == old(tmp[k])
      invariant forall k :: 16 - i + 1 <= k < 16 ==> tmp[k] == old(tmp[k - (16 - tp)])
      invariant forall k :: tp - i + 1 <= k < 16 - i + 1 ==> tmp[k] == 0
    {
      tmp[16 - i] := tmp[colonp + n - i];
      tmp[colonp + n - i] := 0;
    }
    ghost var parts := old(tmp[..colonp]) + seq(16 - tp, _ => 0 as byte) + old(tmp[colonp..tp]);
    assert |parts| == 16;
    forall k | 0 <= k < 16 ensures tmp[k] == parts[k] {
    }
  }

  lemma {:induction false} Ahead(s: string, i: nat)
    requires i < |s|
    ensures s[i..] != "" && s[i..][0] == s[i] && s[i..][1..] == s[i + 1..]
  {
  }

  /** The state of the reader whose buffer holds `tp` bytes. */
  ghost function StateOf(tmp: array<byte>, tp: nat, colonp: Option<nat>, val: nat, seen: nat): State6
    requires tp <= tmp.Length
    reads tmp
  {
    State6(tmp[..tp], colonp, val, seen)
  }

  /** The buffer holds `tp` bytes, and then zeros. */
  ghost predicate Filled(tmp: array<byte>, tp: nat, colonp: Option<nat>)
    reads tmp
  {
    tmp.Length == 16 && tp <= 16 && (forall k :: tp <= k < 16 ==> tmp[k] == 0) && (colonp.Some? ==> colonp.value <= tp)
  }

  method Write(tmp: array<byte>, tp: nat, bytes: seq<byte>)
    requires tp + |bytes| <= 16 && Filled(tmp, tp, None)
    modifies tmp
    ensures Filled(tmp, tp + |bytes|, None) && tmp[..tp + |bytes|] == old(tmp[..tp]) + bytes
  {
    forall k | 0 <= k < |bytes| {
      tmp[tp + k] := bytes[k];
    }
    assert tmp[tp..tp + |bytes|] == bytes;
    assert tmp[..tp] == old(tmp[..tp]);
    assert tmp[..tp + |bytes|] == tmp[..tp] + tmp[tp..tp + |bytes|];
  }

  /** The address a text of version 6 names. */
  method InetPton6(src: string) returns (r: Option<seq<byte>>)
    ensures r == Pton6(src)
  {
    hide Parse6, Finish6, Pton4;
    var i := 0;
    if src != "" && src[0] == ':' {
      i := i + 1;
      if i == |src| || src[i] != ':' {
        return None;
      }
    }
    var s := src[i..];
    assert src[0..] == src;
    var tmp, tp, colonp, val, seen, ok := Scan(s);
    if !ok {
      return None;
    }
    r := Complete6(tmp, tp, colonp, val, seen);
  }

  /** The loop over the text. */
  method Scan(s: string) returns (tmp: array<byte>, tp: nat, colonp: Option<nat>, val: nat, seen: nat, ok: bool)
    ensures fresh(tmp) && Filled(tmp, tp, colonp)
    ensures Parse6(State6([], None, 0, 0), s, s) == if ok then Some(StateOf(tmp, tp, colonp, val, seen)) else None
  {
    hide Pton4;
    tmp, tp, colonp, val, seen, ok := new byte[16](_ => 0), 0, None, 0, 0, false;
    var i, token := 0, 0;
    assert s[0..] == s && tmp[..0] == [];
    while i < |s|
      invariant i <= |s| && token <= |s| && Filled(tmp, tp, colonp) && fresh(tmp)
      invariant Parse6(StateOf(tmp, tp, colonp, val, seen), s[token..], s[i..]) == Parse6(State6([], None, 0, 0), s, s)
      decreases |s| - i
    {
      var ch := s[i];
      Ahead(s, i);
      i := i + 1;
      var d := HexValue(ch);
      if d.Some? {
        val := val * 0x10 + d.value;
        seen := seen + 1;
        if seen > 4 {
          return;
        }
        continue;
      }
      if ch == ':' {
        token := i;
        if seen == 0 {
          if colonp.Some? {
            return;
          }
          colonp := Some(tp);
          continue;
        } else if i == |s| {
          return;
        }
        if tp + 2 > 16 {
          return;
        }
        Write(tmp, tp, [High(val), Low(val)]);
        tp, seen, val := tp + 2, 0, 0;
        continue;
      }
      if ch == '.' && tp + 4 <= 16 {
        var octets := InetPton4(s[token..]);
        if octets.Some? {
          FourOctets(s[token..]);
          Write(tmp, tp, octets.value);
          tp, seen, ok := tp + 4, 0, true;
          return;
        }
      }
      return;
    }
    assert s[i..] == "";
    ok := true;
  }

  lemma {:induction false} FourOctets(src: string)
    ensures Pton4(src).Some? ==> |Pton4(src).value| == 4
  {
    ParsedFour(State4([], false), src);
  }

  lemma {:induction false} ParsedFour(p: State4, src: string)
    ensures Parse4(p, src).Some? ==> |Parse4(p, src).value| == 4
    decreases |src|
  {
    if src != "" {
      var n := |p.octets|;
      var d := DecimalValue(src[0]);
      ParsedFour(p.(sawDigit := false), src[1..]);
      if d.Some? {
        var was := if p.sawDigit && n > 0 then p.octets[n - 1] as nat else 0;
        var value := was * 10 + d.value;
        if value <= 255 {
          ParsedFour(State4(p.octets + [value as byte], true), src[1..]);
          if p.sawDigit && n > 0 {
            ParsedFour(p.(octets := p.octets[n - 1 := value as byte]), src[1..]);
          }
        }
      }
    }
  }

  /** The last word and the zeros left out. */
  method Complete6(tmp: array<byte>, start: nat, colonp: Option<nat>, val: nat,
                   seen: nat) returns (r: Option<seq<byte>>)
    requires Filled(tmp, start, colonp)
    modifies tmp
    ensures r == Finish6(old(StateOf(tmp, start, colonp, val, seen)))
  {
    var tp := start;
    if seen > 0 {
      if tp + 2 > 16 {
        return None;
      }
      Write(tmp, tp, [High(val), Low(val)]);
      tp := tp + 2;
    }
    if colonp.Some? {
      if tp == 16 {
        return None;
      }
      ghost var out := tmp[..tp];
      assert out[..colonp.value] == tmp[..colonp.value] && out[colonp.value..] == tmp[colonp.value..tp];
      Expand(tmp, colonp.value, tp);
      tp := 16;
    }
    if tp != 16 {
      return None;
    }
    assert tmp[..16] == tmp[..];
    return Some(tmp[..]);
  }

  /** Reading what was written gives the address back. */
  method WriteThenRead(src: seq<byte>) returns (r: Option<seq<byte>>)
    requires |src| == 16
    ensures r == Some(src)
  {
    var text := InetNtop6(src, INET6_ADDRSTRLEN);
    ghost var best :| Best(WordsOf(src), best) && Fits(best) && WrittenAs(src, best, INET6_ADDRSTRLEN, text);
    r := InetPton6(text.value);
    RoundTrip6(src, best);
  }

  datatype Outcome = Address(bytes: seq<byte>) | Invalid | NotSupported

  /** Reads a text of version 4, or of version 6 with or without a zone after "%". */
  method UvInetPton(version: int, src: string) returns (r: Outcome)
    ensures version == 4 ==> r == (match Pton4(src) case Some(a) => Address(a) case None => Invalid)
    ensures version == 6 && '%' !in src ==> r == (match Pton6(src) case Some(a) => Address(a) case None => Invalid)
    ensures version == 6 && '%' in src ==>
              exists k :: 0 <= k < |src| && src[k] == '%' && '%' !in src[..k]
                && r == (if k >= INET6_ADDRSTRLEN then Invalid
                    else match Pton6(src[..k]) case Some(a) => Address(a) case None => Invalid)
    ensures version != 4 && version != 6 ==> r == NotSupported
  {
    if version == 4 {
      var a := InetPton4(src);
      return if a.Some? then Address(a.value) else Invalid;
    }
    if version != 6 {
      return NotSupported;
    }
    var len := 0;
    while len < |src| && src[len] != '%'
      invariant len <= |src| && '%' !in src[..len]
    {
      len := len + 1;
    }
    var s := src;
    if len < |src| {
      if len > INET6_ADDRSTRLEN - 1 {
        return Invalid;
      }
      s := src[..len];
    } else {
      assert src[..len] == src;
    }
    var a := InetPton6(s);
    return if a.Some? then Address(a.value) else Invalid;
  }
}
