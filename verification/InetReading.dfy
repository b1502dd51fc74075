/** Which texts of base 16 digits and colons are version 6 addresses, and of which value: eight groups of at most four
    digits, or at most seven around two colons. */
module InetReading {
  import opened Wrappers
  import opened Octets
  import opened Inet

  // ----- Groups ---------------------------------------------------------------------------------------------

  predicate IsHex(c: char) {
    '0' <= c <= '9' || 'a' <= c <= 'f' || 'A' <= c <= 'F'
  }

  function DigitOf(c: char): nat
    requires IsHex(c)
  {
    if c <= '9' then (c - '0') as nat else if c <= 'F' then (c - 'A') as nat + 10 else (c - 'a') as nat + 10
  }

  predicate Digits(g: string) {
    forall i :: 0 <= i < |g| ==> IsHex(g[i])
  }

  /** The number that the digits `g` make of `n` before them. */
  function ValueFrom(n: nat, g: string): nat
    requires Digits(g)
    decreases |g|
  {
    if g == "" then n else ValueFrom(16 * n + DigitOf(g[0]), g[1..])
  }

  /** A group of digits, and its number. */
  predicate Group(g: string) {
    g != "" && Digits(g)
  }

  predicate Groups(gs: seq<string>) {
    forall i :: 0 <= i < |gs| ==> Group(gs[i])
  }

  function Value(g: string): nat
    requires Group(g)
  {
    ValueFrom(0, g)
  }

  /** The groups with colons between them. */
  function Colons(gs: seq<string>): string {
    if gs == [] then "" else gs[0] + if |gs| == 1 then "" else ":" + Colons(gs[1..])
  }

  /** The bytes of the numbers, the high one first. */
  function Packed(gs: seq<string>): (s: seq<byte>)
    requires Groups(gs)
    ensures |s| == 2 * |gs|
  {
    if gs == [] then []
    else [(Value(gs[0]) / 256 % 256) as byte, (Value(gs[0]) % 256) as byte] + Packed(gs[1..])
  }

  predicate Short(gs: seq<string>) {
    forall i :: 0 <= i < |gs| ==> |gs[i]| <= 4
  }

  // ----- Reading a group ------------------------------------------------------------------------------------

  lemma {:induction false} HexIs(c: char)
    requires IsHex(c)
    ensures HexValue(c) == Some(DigitOf(c))
  {
  }

  lemma {:induction false} ReadDigits(p: State6, token: string, g: string, rest: string)
    requires ColonOk(p) && Digits(g) && p.seen <= 4
    ensures Parse6(p, token, g + rest) ==
              if p.seen + |g| <= 4 then Parse6(p.(val := ValueFrom(p.val, g), seen := p.seen + |g|), token, rest)
              else None
    decreases |g|
  {
    if g == "" {
      assert g + rest == rest;
    } else {
      var s, c := g + rest, g[0];
      assert s[0] == c && s[1..] == g[1..] + rest;
      HexIs(c);
      if p.seen < 4 {
        OneDigit(p, token, c, s);
        ReadDigits(p.(val := p.val * 0x10 + DigitOf(c), seen := p.seen + 1), token, g[1..], rest);
      } else {
        OneDigit(p, token, c, s);
      }
    }
  }

  lemma {:induction false} OneDigit(p: State6, token: string, c: char, s: string)
    requires ColonOk(p) && s != "" && s[0] == c && IsHex(c)
    ensures p.seen == 4 ==> Parse6(p, token, s) == None
    ensures p.seen != 4 ==>
              Parse6(p, token, s) == Parse6(p.(val := p.val * 0x10 + DigitOf(c), seen := p.seen + 1), token, s[1..])
  {
    hide Pton4;
    HexIs(c);
  }

  /** The text that began with a group does not matter after it. */
  lemma {:induction false} TokenForgotten(p: State6, token: string, token': string, rest: string)
    requires ColonOk(p) && (rest == "" || rest[0] == ':')
    ensures Parse6(p, token, rest) == Parse6(p, token', rest)
  {
    hide Pton4, High, Low;
  }

  lemma {:induction false} OneColon(p: State6, token: string, rest: string)
    requires ColonOk(p)
    ensures p.seen > 0 && rest != "" && |p.out| + 2 <= 16 ==>
              Parse6(p, token, ":" + rest) ==
                Parse6(State6(p.out + [High(p.val), Low(p.val)], p.colon, 0, 0), rest, rest)
    ensures p.seen > 0 && |p.out| + 2 > 16 ==> Parse6(p, token, ":" + rest) == None
    ensures p.seen == 0 && p.colon.None? ==>
              Parse6(p, token, ":" + rest) == Parse6(p.(colon := Some(|p.out|)), rest, rest)
  {
    hide Pton4, High, Low;
    assert (":" + rest)[1..] == rest;
  }

  // ----- Reading groups -------------------------------------------------------------------------------------

  /** The state after the groups: the last one is not packed yet. */
  function AfterGroups(p: State6, gs: seq<string>): State6
    requires gs != [] && Groups(gs)
  {
    var n := |gs| - 1;
    State6(p.out + Packed(gs[..n]), p.colon, Value(gs[n]), |gs[n]|)
  }

  /** What reading groups, and then `rest`, comes to. */
  lemma {:induction false} ReadGroups(p: State6, token: string, gs: seq<string>, rest: string)
    requires ColonOk(p) && p.val == 0 && p.seen == 0 && gs != [] && Groups(gs) && (rest == "" || rest[0] == ':')
    requires |p.out| <= 16
    ensures Parse6(p, token, Colons(gs) + rest) ==
              if Short(gs) && |p.out| + 2 * (|gs| - 1) <= 16 then Parse6(AfterGroups(p, gs), token, rest) else None
    decreases |gs|
  {
    hide Parse6, High, Low;
    var g, more := gs[0], gs[1..];
    assert Group(g);
    if |gs| == 1 {
      assert gs[..0] == [] && p.out + [] == p.out;
      assert Colons(gs) + rest == g + rest by { assert g + "" == g; }
      ReadDigits(p, token, g, rest);
      assert Short(gs) <==> |g| <= 4;
    } else {
      var tail := Colons(more) + rest;
      assert Colons(gs) + rest == g + (":" + tail);
      ReadDigits(p, token, g, ":" + tail);
      ShortFirst(gs);
      if |g| <= 4 {
        var q := p.(val := Value(g), seen := |g|);
        ColonsNotEmpty(more);
        OneColon(q, token, tail);
        if |p.out| + 2 <= 16 {
          var r := State6(p.out + [High(Value(g)), Low(Value(g))], p.colon, 0, 0);
          ReadGroups(r, tail, more, rest);
          if Short(more) && |r.out| + 2 * (|more| - 1) <= 16 {
            AfterMore(p, r, gs);
            TokenForgotten(AfterGroups(p, gs), tail, token, rest);
          }
        }
      }
    }
  }

  lemma {:induction false} ShortFirst(gs: seq<string>)
    requires gs != []
    ensures Short(gs) <==> |gs[0]| <= 4 && Short(gs[1..])
  {
    assert gs == [gs[0]] + gs[1..];
  }

  lemma {:induction false} ColonsNotEmpty(gs: seq<string>)
    requires gs != [] && Groups(gs)
    ensures Colons(gs) != "" && Colons(gs)[0] != ':'
  {
    assert Group(gs[0]) && IsHex(gs[0][0]);
    assert Colons(gs)[0] == gs[0][0];
  }

  lemma {:induction false} AfterMore(p: State6, r: State6, gs: seq<string>)
    requires |gs| > 1 && Groups(gs)
    requires r == State6(p.out + [High(Value(gs[0])), Low(Value(gs[0]))], p.colon, 0, 0)
    ensures AfterGroups(r, gs[1..]) == AfterGroups(p, gs)
  {
    var n := |gs| - 1;
    assert gs[1..][..n - 1] == gs[1..n] && gs[..n][1..] == gs[1..n] && gs[..n][0] == gs[0];
    var pair: seq<byte> := [High(Value(gs[0])), Low(Value(gs[0]))];
    assert Packed(gs[..n]) == pair + Packed(gs[1..n]);
    assert p.out + pair + Packed(gs[1..n]) == p.out + (pair + Packed(gs[1..n]));
  }

  // ----- Whole texts ----------------------------------------------------------------------------------------

  const START := State6([], None, 0, 0)

  lemma {:induction false} NotLeading(s: string)
    requires s != "" && s[0] != ':'
    ensures Pton6(s) == match Parse6(START, s, s) case None => None case Some(p) => Finish6(p)
  {
  }

  lemma {:induction false} LastPacked(p: State6, gs: seq<string>)
    requires gs != [] && Groups(gs) && Short(gs)
    ensures var q := AfterGroups(p, gs);
            q.seen > 0 && q.out + [High(q.val), Low(q.val)] == p.out + Packed(gs) && q.colon == p.colon
  {
    var n := |gs| - 1;
    assert Group(gs[n]);
    PackedMore(gs[..n], gs[n]);
    assert gs[..n] + [gs[n]] == gs;
    var pair: seq<byte> := [High(Value(gs[n])), Low(Value(gs[n]))];
    assert p.out + Packed(gs[..n]) + pair == p.out + (Packed(gs[..n]) + pair);
  }

  lemma {:induction false} PackedMore(gs: seq<string>, g: string)
    requires Groups(gs) && Group(g)
    ensures Packed(gs + [g]) == Packed(gs) + [High(Value(g)), Low(Value(g))]
  {
    if gs == [] {
      assert [g][1..] == [];
      assert [] + [g] == [g];
    } else {
      assert (gs + [g])[1..] == gs[1..] + [g];
      PackedMore(gs[1..], g);
    }
  }

  /** Groups with single colons between them are an address when there are eight, of at most four digits each. */
  lemma {:induction false} EightGroups(gs: seq<string>)
    requires gs != [] && Groups(gs)
    ensures Pton6(Colons(gs)) == if Short(gs) && |gs| == 8 then Some(Packed(gs)) else None
  {
    hide Parse6, Finish6, Pton6, Packed, Colons, AfterGroups;
    var s := Colons(gs);
    ColonsNotEmpty(gs);
    NotLeading(s);
    assert s + "" == s;
    ReadGroups(START, s, gs, "");
    if Short(gs) && |gs| <= 9 {
      var q := AfterGroups(START, gs);
      LastPacked(START, gs);
      AtEnd(q, s);
      FinishFull(q, gs);
    }
  }

  lemma {:induction false} AtEnd(p: State6, token: string)
    requires ColonOk(p)
    ensures Parse6(p, token, "") == Some(p)
  {
  }

  lemma {:induction false} FinishFull(q: State6, gs: seq<string>)
    requires q.colon.None? && q.seen > 0 && Groups(gs) && |q.out| + 2 == 2 * |gs|
    requires q.out + [High(q.val), Low(q.val)] == Packed(gs)
    ensures Finish6(q) == if |gs| == 8 then Some(Packed(gs)) else None
  {
  }

  /** Zeros for the groups that two colons stand for. */
  function Zeros(n: nat): (z: seq<byte>)
    ensures |z| == n
  {
    seq(n, _ => 0 as byte)
  }

  /** What has been read after two colons, which stand behind `m` bytes. */
  lemma {:induction false} FinishGap(q: State6, m: nat, out: seq<byte>)
    requires q.colon == Some(m) && m <= |q.out| && m <= |out|
    requires out == if q.seen > 0 then q.out + [High(q.val), Low(q.val)] else q.out
    ensures Finish6(q) == if |out| < 16 then Some(out[..m] + Zeros(16 - |out|) + out[m..]) else None
  {
    hide High, Low;
  }

  /** Two colons stand for the groups that are missing, at least one. */
  lemma {:induction false} AroundTwoColons(a: seq<string>, b: seq<string>)
    requires Groups(a) && Groups(b)
    ensures Pton6(Colons(a) + ("::" + Colons(b))) ==
              if Short(a) && Short(b) && |a| + |b| <= 7 then Some(Packed(a) + Zeros(16 - 2 * (|a| + |b|)) + Packed(b))
              else None
  {
    hide Parse6, Finish6, Pton6, Packed, Colons, AfterGroups;
    var s, rest := Colons(a) + ("::" + Colons(b)), Colons(b);
    assert "::" + rest == ":" + (":" + rest);
    if a == [] {
      NoGroups();
      assert s == "::" + rest;
      assert s[1..] == ":" + rest;
      LeadingColons(s, rest);
      OneColon(START, s[1..], rest);
      AfterGap(START.(colon := Some(0)), rest, a, b);
    } else {
      ColonsNotEmpty(a);
      NotLeading(s);
      ReadGroups(START, s, a, "::" + rest);
      if Short(a) && |a| <= 9 {
        var q := AfterGroups(START, a);
        LastPacked(START, a);
        OneColon(q, s, ":" + rest);
        if |a| <= 8 {
          var r := State6(q.out + [High(q.val), Low(q.val)], None, 0, 0);
          OneColon(r, ":" + rest, rest);
          AfterGap(r.(colon := Some(|r.out|)), rest, a, b);
        }
      }
    }
  }

  lemma {:induction false} NoGroups()
    ensures Colons([]) == "" && Packed([]) == [] && Short([])
  {
  }

  lemma {:induction false} LeadingColons(s: string, rest: string)
    requires s == "::" + rest
    ensures Pton6(s) == match Parse6(START, ":" + rest, ":" + rest) case None => None case Some(p) => Finish6(p)
  {
    assert s[1..] == ":" + rest;
  }

  lemma {:induction false} AfterGap(p: State6, rest: string, a: seq<string>, b: seq<string>)
    requires Groups(a) && Groups(b) && Short(a) && rest == Colons(b) && |a| <= 8
    requires p == State6(Packed(a), Some(2 * |a|), 0, 0)
    ensures (match Parse6(p, rest, rest) case None => None case Some(q) => Finish6(q)) ==
              if Short(b) && |a| + |b| <= 7 then Some(Packed(a) + Zeros(16 - 2 * (|a| + |b|)) + Packed(b)) else None
  {
    hide Parse6, Finish6, Packed, Colons, AfterGroups;
    var m, out := 2 * |a|, Packed(a) + Packed(b);
    assert out[..m] == Packed(a) && out[m..] == Packed(b);
    if b == [] {
      NoGroups();
      AtEnd(p, rest);
      assert out == Packed(a);
      FinishGap(p, m, out);
    } else {
      assert rest + "" == rest;
      ReadGroups(p, rest, b, "");
      if Short(b) && |p.out| + 2 * (|b| - 1) <= 16 {
        var q := AfterGroups(p, b);
        LastPacked(p, b);
        AtEnd(q, rest);
        OutGrows(p, b);
        FinishGap(q, m, out);
      }
    }
  }

  lemma {:induction false} OutGrows(p: State6, gs: seq<string>)
    requires gs != [] && Groups(gs)
    ensures |p.out| <= |AfterGroups(p, gs).out|
  {
  }

  /** An address does not end in a single colon. */
  lemma {:induction false} NoLastColon(gs: seq<string>)
    requires gs != [] && Groups(gs)
    ensures Pton6(Colons(gs) + ":") == None
  {
    hide Parse6, Finish6, Pton6, Packed, Colons, AfterGroups;
    var s := Colons(gs) + ":";
    ColonsNotEmpty(gs);
    NotLeading(s);
    ReadGroups(START, s, gs, ":");
    if Short(gs) && |gs| <= 9 {
      LastPacked(START, gs);
      ColonAtEnd(AfterGroups(START, gs), s);
    }
  }

  lemma {:induction false} ColonAtEnd(p: State6, token: string)
    requires ColonOk(p) && p.seen > 0
    ensures Parse6(p, token, ":") == None
  {
    hide Pton4, High, Low;
  }

  /** Nor does it have two colons twice. */
  lemma {:induction false} TwoColonsOnce(a: seq<string>, b: seq<string>, rest: string)
    requires a != [] && b != [] && Groups(a) && Groups(b)
    ensures Pton6(Colons(a) + ("::" + (Colons(b) + ("::" + rest)))) == None
  {
    hide Parse6, Finish6, Pton6, Packed, Colons, AfterGroups;
    var last := Colons(b) + ("::" + rest);
    var s := Colons(a) + ("::" + last);
    assert "::" + last == ":" + (":" + last) && "::" + rest == ":" + (":" + rest);
    ColonsNotEmpty(a);
    NotLeading(s);
    ReadGroups(START, s, a, "::" + last);
    if Short(a) && |a| <= 9 {
      var q := AfterGroups(START, a);
      LastPacked(START, a);
      OneColon(q, s, ":" + last);
      if |a| <= 8 {
        var r := State6(q.out + [High(q.val), Low(q.val)], None, 0, 0);
        OneColon(r, ":" + last, last);
        var p := r.(colon := Some(|r.out|));
        ReadGroups(p, last, b, "::" + rest);
        if Short(b) && |p.out| + 2 * (|b| - 1) <= 16 {
          SecondGap(AfterGroups(p, b), last, p, b, rest);
        }
      }
    }
  }

  lemma {:induction false} SecondGap(q: State6, token: string, p: State6, gs: seq<string>, rest: string)
    requires gs != [] && Groups(gs) && Short(gs) && p.colon.Some? && ColonOk(p) && q == AfterGroups(p, gs)
    ensures Parse6(q, token, "::" + rest) == None
  {
    hide Parse6, Packed, High, Low;
    LastPacked(p, gs);
    assert "::" + rest == ":" + (":" + rest);
    OneColon(q, token, ":" + rest);
    if |q.out| + 2 <= 16 {
      ColonAgain(State6(q.out + [High(q.val), Low(q.val)], q.colon, 0, 0), ":" + rest, rest);
    }
  }

  lemma {:induction false} ColonAgain(p: State6, token: string, rest: string)
    requires ColonOk(p) && p.seen == 0 && p.colon.Some?
    ensures Parse6(p, token, ":" + rest) == None
  {
    hide Pton4, High, Low;
  }
}
