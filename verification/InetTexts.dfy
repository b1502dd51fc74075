/** The texts of version 6 addresses, written out: words between colons, two colons for the zeros left out, and a
    version 4 address at the end of mapped and compatible addresses only. */
module InetTexts {
  import opened Wrappers
  import opened Octets
  import opened Inet

  /** Words in base 16, with colons between them. */
  function Colons(words: seq<nat>): string {
    if words == [] then ""
    else Numeral(words[0], 16) + if |words| == 1 then "" else ":" + Colons(words[1..])
  }

  /** ::ffff:a.b.c.d */
  predicate Mapped(words: seq<nat>)
    requires |words| == 8
  {
    Zeros(words, 0, 5) && words[5] == 0xffff
  }

  /** ::a.b.c.d, but for addresses that end in one word. */
  predicate Compatible(words: seq<nat>)
    requires |words| == 8
  {
    Zeros(words, 0, 6) && words[6] != 0
  }

  lemma {:induction false} EmbedsWhere(words: seq<nat>, best: Run)
    requires |words| == 8 && Best(words, best) && Fits(best)
    ensures Mapped(words) <==> best == Run(0, 5) && words[5] == 0xffff
    ensures Compatible(words) <==> best == Run(0, 6)
    ensures Embeds4(words, best) && !InRun(best, 6) <==> Mapped(words) || Compatible(words)
  {
    var b := best.base;
    if b != -1 {
      assert Zeros(words, b, best.len);
      assert forall i :: b <= i < b + best.len ==> words[i] == 0;
    }
    if Mapped(words) {
      assert Zeros(words, 0, 5) && b != -1;
    }
    if Compatible(words) {
      assert Zeros(words, 0, 6) && b != -1;
    }
    if best == Run(0, 6) && words[6] == 0 {
      assert Zeros(words, 0, 7);
    }
  }

  /** All words from the one up to the other are zero. */
  predicate ZeroWords(words: seq<nat>, from: nat, to: nat) {
    from < to <= |words| && forall i :: from <= i < to ==> words[i] == 0
  }

  /** Nothing is left out exactly when no two zero words stand side by side; what is left out is as long as any zero
      words side by side, and further on the left than others as long. */
  lemma {:induction false} LeftOut(words: seq<nat>, best: Run)
    requires |words| == 8 && Best(words, best) && Fits(best)
    ensures best.base == -1 <==> forall i :: 0 <= i < 7 && words[i] == 0 ==> words[i + 1] != 0
    ensures best.base != -1 ==> ZeroWords(words, best.base, best.base + best.len)
    ensures best.base != -1 ==>
              forall from: nat, to: nat :: ZeroWords(words, from, to) ==>
                to - from < best.len || (to - from == best.len && from >= best.base)
  {
    forall from: nat, to: nat | ZeroWords(words, from, to) ensures Zeros(words, from, to - from) {}
    if best.base != -1 {
      assert Zeros(words, best.base, best.len);
      assert words[best.base] == words[best.base + 1] == 0;
    } else {
      forall i | 0 <= i < 7 && words[i] == 0 ensures words[i + 1] != 0 {
        assert !Zeros(words, i, 2);
      }
    }
  }

  /** A word that is written in base 16. */
  predicate Written(words: seq<nat>, best: Run, k: nat)
    requires |words| == 8
  {
    !InRun(best, k) && (k == 6 ==> !Embeds4(words, best))
  }

  /** Words before the run, or all of them. */
  lemma {:induction false} TextBefore(a: seq<byte>, words: seq<nat>, best: Run, i: nat, end: nat)
    requires |a| == 16 && |words| == 8 && Fits(best) && i < end <= 8
    requires forall k :: i <= k < end ==> Written(words, best, k)
    ensures Text(a, words, best, i) == (if i == 0 then "" else ":") + Colons(words[i..end]) + Text(a, words, best, end)
    decreases end - i
  {
    hide Numeral, Ntop4, Written, Text;
    var part := words[i..end];
    assert part[1..] == words[i + 1..end];
    var sep, n, more := if i == 0 then "" else ":", Numeral(words[i], 16), Text(a, words, best, i + 1);
    assert Text(a, words, best, i) == sep + (n + more) by { OneWord(a, words, best, i); }
    if i + 1 < end {
      TextBefore(a, words, best, i + 1, end);
      assert Colons(part) == n + (":" + Colons(part[1..]));
      Five(sep, n, ":", Colons(part[1..]), Text(a, words, best, end));
    } else {
      assert Colons(part) == n + "";
      Five(sep, n, "", "", more);
    }
  }

  lemma {:induction false} OneWord(a: seq<byte>, words: seq<nat>, best: Run, i: nat)
    requires |a| == 16 && |words| == 8 && i < 8 && Written(words, best, i)
    ensures Text(a, words, best, i) ==
            (if i == 0 then "" else ":") + (Numeral(words[i], 16) + Text(a, words, best, i + 1))
  {
    hide Numeral, Ntop4, Embeds4;
  }

  lemma {:induction false} Five(a: string, b: string, c: string, d: string, e: string)
    ensures a + (b + (c + d + e)) == a + (b + (c + d)) + e
  {
  }

  /** The run, of which only a colon is left besides the one that separates. */
  lemma {:induction false} TextRun(a: seq<byte>, words: seq<nat>, best: Run, i: nat)
    requires |a| == 16 && |words| == 8 && Fits(best) && InRun(best, i)
    ensures Text(a, words, best, i) ==
            (if i == best.base then ":" else "") + Text(a, words, best, best.base + best.len)
    decreases 8 - i
  {
    hide Numeral, Ntop4, Embeds4, Text;
    var end := best.base + best.len;
    OneLeftOut(a, words, best, i);
    if i + 1 < end {
      TextRun(a, words, best, i + 1);
      assert "" + Text(a, words, best, end) == Text(a, words, best, end);
    }
  }

  lemma {:induction false} OneLeftOut(a: seq<byte>, words: seq<nat>, best: Run, i: nat)
    requires |a| == 16 && |words| == 8 && i < 8 && InRun(best, i)
    ensures Text(a, words, best, i) == (if i == best.base then ":" else "") + Text(a, words, best, i + 1)
  {
    hide Numeral, Ntop4, Embeds4;
  }

  lemma {:induction false} TextLast(a: seq<byte>, words: seq<nat>, best: Run)
    requires |a| == 16 && |words| == 8
    ensures Text(a, words, best, 8) == if best.base != -1 && best.base + best.len == 8 then ":" else ""
  {
  }

  /** What is written for an address. */
  lemma {:induction false} TextIs(a: seq<byte>, best: Run)
    requires |a| == 16 && Best(WordsOf(a), best) && Fits(best)
    ensures var words, b, end := WordsOf(a), best.base, best.base + best.len;
            Text(a, words, best, 0) ==
              if Mapped(words) then "::ffff:" + Ntop4(a[12..16])
              else if Compatible(words) then "::" + Ntop4(a[12..16])
              else if b == -1 then Colons(words)
              else Colons(words[..b]) + "::" + Colons(words[end..])
  {
    hide Numeral, Ntop4, Embeds4, WordsOf, Text, Best, Fits, Zeros, Colons;
    var words := WordsOf(a);
    EmbedsWhere(words, best);
    if Mapped(words) {
      MappedText(a, words, best);
    } else if Compatible(words) {
      CompatibleText(a, words, best);
    } else {
      PlainText(a, words, best);
    }
  }

  lemma {:induction false} MappedText(a: seq<byte>, words: seq<nat>, best: Run)
    requires |a| == 16 && |words| == 8 && best == Run(0, 5) && words[5] == 0xffff
    ensures Text(a, words, best, 0) == "::ffff:" + Ntop4(a[12..16])
  {
    hide Numeral, Ntop4;
    TextRun(a, words, best, 0);
    Ffff();
    assert Text(a, words, best, 6) == ":" + Ntop4(a[12..16]);
    assert Text(a, words, best, 5) == ":" + ("ffff" + (":" + Ntop4(a[12..16])));
    assert ":" + (":" + ("ffff" + (":" + Ntop4(a[12..16])))) == "::ffff:" + Ntop4(a[12..16]);
  }

  lemma {:induction false} Ffff()
    ensures Numeral(0xffff, 16) == "ffff"
  {
    assert Numeral(0xf, 16) == "f";
    assert Numeral(0xff, 16) == Numeral(0xf, 16) + "f";
    assert Numeral(0xfff, 16) == Numeral(0xff, 16) + "f";
    assert Numeral(0xffff, 16) == Numeral(0xfff, 16) + "f";
  }

  lemma {:induction false} CompatibleText(a: seq<byte>, words: seq<nat>, best: Run)
    requires |a| == 16 && |words| == 8 && best == Run(0, 6)
    ensures Text(a, words, best, 0) == "::" + Ntop4(a[12..16])
  {
    hide Numeral, Ntop4;
    TextRun(a, words, best, 0);
    assert Text(a, words, best, 6) == ":" + Ntop4(a[12..16]);
    assert ":" + (":" + Ntop4(a[12..16])) == "::" + Ntop4(a[12..16]);
  }

  lemma {:induction false} PlainText(a: seq<byte>, words: seq<nat>, best: Run)
    requires |a| == 16 && |words| == 8 && Fits(best) && (!InRun(best, 6) ==> !Embeds4(words, best))
    ensures Text(a, words, best, 0) ==
              if best.base == -1 then Colons(words)
              else Colons(words[..best.base]) + "::" + Colons(words[best.base + best.len..])
  {
    hide Numeral, Ntop4, Embeds4, Text, Colons;
    var b, end := best.base, best.base + best.len;
    if b == -1 {
      TextBefore(a, words, best, 0, 8);
      TextLast(a, words, best);
      assert words[0..8] == words;
      assert "" + Colons(words) + "" == Colons(words);
    } else {
      RunText(a, words, best);
      if b > 0 {
        TextBefore(a, words, best, 0, b);
        assert words[0..b] == words[..b];
        Around(Colons(words[..b]), Colons(words[end..]));
      } else {
        assert words[..b] == [] && Colons([]) == "" by { NoWords(); }
      }
    }
  }

  lemma {:induction false} NoWords()
    ensures Colons([]) == ""
  {
  }

  lemma {:induction false} Around(l: string, r: string)
    ensures "" + l + ("::" + r) == l + "::" + r
  {
  }

  lemma {:induction false} RunText(a: seq<byte>, words: seq<nat>, best: Run)
    requires |a| == 16 && |words| == 8 && Fits(best) && best.base >= 0 && (!InRun(best, 6) ==> !Embeds4(words, best))
    ensures Text(a, words, best, best.base) == "::" + Colons(words[best.base + best.len..])
  {
    hide Numeral, Ntop4, Embeds4, Text, Colons;
    var b, end := best.base, best.base + best.len;
    TextRun(a, words, best, b);
    TextLast(a, words, best);
    if end < 8 {
      TextBefore(a, words, best, end, 8);
      assert words[end..8] == words[end..];
      assert ":" + (":" + Colons(words[end..]) + "") == "::" + Colons(words[end..]);
    } else {
      assert words[end..] == [] && Colons([]) == "" by { NoWords(); }
      assert ":" + ":" == "::" + "";
    }
  }

  // ----- Upper and lower case -------------------------------------------------------------------------------

  /** The same character, or the same letter of a base 16 digit. */
  predicate SameDigit(c: char, d: char) {
    || c == d
    || ('a' <= c <= 'f' && 'A' <= d <= 'F' && c - 'a' == d - 'A')
    || ('a' <= d <= 'f' && 'A' <= c <= 'F' && d - 'a' == c - 'A')
  }

  predicate SameDigits(s: string, t: string) {
    |s| == |t| && forall i :: 0 <= i < |s| ==> SameDigit(s[i], t[i])
  }

  lemma {:induction false} SameRest(s: string, t: string)
    requires s != "" && SameDigits(s, t)
    ensures SameDigit(s[0], t[0]) && SameDigits(s[1..], t[1..])
  {
    forall i | 0 <= i < |s[1..]| ensures SameDigit(s[1..][i], t[1..][i]) {
      assert SameDigit(s[i + 1], t[i + 1]);
    }
  }

  /** A version 4 address has no letters. */
  lemma {:induction false} Same4(p: State4, s: string, t: string)
    requires SameDigits(s, t)
    ensures Parse4(p, s) == Parse4(p, t)
    decreases |s|
  {
    if s != "" {
      SameRest(s, t);
      assert DecimalValue(s[0]) == DecimalValue(t[0]) && (s[0] == '.' <==> t[0] == '.');
      forall p' ensures Parse4(p', s[1..]) == Parse4(p', t[1..]) {
        Same4(p', s[1..], t[1..]);
      }
    }
  }

  lemma {:induction false} Same6(p: State6, token: string, token': string, s: string, t: string)
    requires ColonOk(p) && SameDigits(token, token') && SameDigits(s, t)
    ensures Parse6(p, token, s) == Parse6(p, token', t)
    decreases |s|
  {
    hide Pton4, High, Low;
    if s != "" {
      SameRest(s, t);
      assert HexValue(s[0]) == HexValue(t[0]) && (s[0] == '.' <==> t[0] == '.') && (s[0] == ':' <==> t[0] == ':');
      var rest, rest' := s[1..], t[1..];
      var d := HexValue(s[0]);
      if d.Some? {
        if p.seen != 4 {
          Same6(p.(val := p.val * 0x10 + d.value, seen := p.seen + 1), token, token', rest, rest');
        }
      } else if s[0] == ':' {
        if p.seen == 0 {
          if p.colon.None? {
            Same6(p.(colon := Some(|p.out|)), rest, rest', rest, rest');
          }
        } else if rest != "" && |p.out| + 2 <= 16 {
          Same6(State6(p.out + [High(p.val), Low(p.val)], p.colon, 0, 0), rest, rest', rest, rest');
        }
      } else if s[0] == '.' {
        assert Pton4(token) == Pton4(token') by { Same4(State4([], false), token, token'); Begins4(token, token'); }
      }
    }
  }

  lemma {:induction false} Begins4(s: string, t: string)
    ensures Pton4(s) == Parse4(State4([], false), s) && Pton4(t) == Parse4(State4([], false), t)
  {
  }

  /** Reading does not tell upper from lower case. */
  lemma {:induction false} CaseIgnored(s: string, t: string)
    requires SameDigits(s, t)
    ensures Pton6(s) == Pton6(t)
  {
    hide Parse6, Finish6;
    assert |s| > 0 ==> SameDigit(s[0], t[0]);
    assert |s| > 1 ==> SameDigit(s[1], t[1]);
    var start := State6([], None, 0, 0);
    if s != "" && s[0] == ':' {
      SameRest(s, t);
      Same6(start, s[1..], t[1..], s[1..], t[1..]);
    } else {
      Same6(start, s, t, s, t);
    }
  }
}
