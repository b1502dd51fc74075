/** Open addressing with linear probing and tombstones. */
module HashTable {
  import opened Wrappers

  /** A key as the program holds it. Different objects may be equal keys. */
  type Key = nat

  /** How keys are compared and hashed: keys are equal when they are the same after `canon`. */
  datatype Hashing = Hashing(canon: Key -> nat, hash: Key -> nat)

  /** A slot: an undefined key with `false` is empty, one with `true` is a tombstone. */
  datatype Entry<V> = Empty | Tombstone | Live(key: Key, value: V)

  // ----- Probing -----------------------------------------------------------------------------------------------

  function Home(H: Hashing, k: Key, n: nat): nat
    requires n > 0
  {
    H.hash(k) % n
  }

  /** The slot `d` steps after `start`, going round. */
  function At(start: nat, d: nat, n: nat): nat {
    if start + d < n then start + d else start + d - n
  }

  /** How many steps from `start` lead to slot `j`. */
  function Steps(start: nat, j: nat, n: nat): nat {
    if j >= start then j - start else if j + n >= start then j + n - start else 0
  }

  lemma {:induction false} NextSlot(start: nat, d: nat, n: nat)
    requires start < n && d < n
    ensures (At(start, d, n) + 1) % n == At(start, d + 1, n) || (d + 1 == n && (At(start, d, n) + 1) % n == start)
    ensures At(start, d, n) < n
    ensures (At(start, d, n) + 1) % n == start <==> d + 1 == n
  {
  }

  lemma {:induction false} StepsAt(start: nat, j: nat, n: nat)
    requires start < n && j < n
    ensures Steps(start, j, n) < n && At(start, Steps(start, j, n), n) == j
    ensures forall d :: 0 <= d < n && At(start, d, n) == j ==> d == Steps(start, j, n)
  {
  }

  predicate LiveAs<V>(H: Hashing, e: Entry<V>, c: nat) {
    e.Live? && H.canon(e.key) == c
  }

  /** Slot `j` can be found: no slot on the way to it from its key's home is empty. */
  ghost predicate Findable<V>(H: Hashing, s: seq<Entry<V>>, j: nat)
    requires j < |s|
  {
    s[j].Live? ==>
      var h := Home(H, s[j].key, |s|);
      forall d :: 0 <= d < Steps(h, j, |s|) ==> !s[At(h, d, |s|)].Empty?
  }

  /** A well-formed table: every live entry can be found, and no two have equal keys. */
  ghost predicate Table<V>(H: Hashing, s: seq<Entry<V>>) {
    && (forall j :: 0 <= j < |s| ==> Findable(H, s, j))
    && (forall i, j :: 0 <= i < j < |s| && s[i].Live? && s[j].Live? ==> H.canon(s[i].key) != H.canon(s[j].key))
  }

  function Filled<V>(s: seq<Entry<V>>): nat {
    if s == [] then 0 else Filled(s[..|s| - 1]) + if s[|s| - 1].Live? then 1 else 0
  }

  /** The map that a table stands for. */
  function Contents<V>(H: Hashing, s: seq<Entry<V>>): map<nat, V> {
    if s == [] then map[]
    else
      var rest, e := Contents(H, s[..|s| - 1]), s[|s| - 1];
      if e.Live? then rest[H.canon(e.key) := e.value] else rest
  }

  lemma {:induction false} ContentsIs<V>(H: Hashing, s: seq<Entry<V>>, c: nat)
    ensures c in Contents(H, s) <==> exists j :: 0 <= j < |s| && LiveAs(H, s[j], c)
  {
    if s != [] {
      var rest, e := s[..|s| - 1], s[|s| - 1];
      ContentsIs(H, rest, c);
      if LiveAs(H, e, c) {
        assert LiveAs(H, s[|s| - 1], c);
      } else if c in Contents(H, rest) {
        var j :| 0 <= j < |rest| && LiveAs(H, rest[j], c);
        assert LiveAs(H, s[j], c);
      }
    }
  }

  /** A live entry of a table gives the value of its key. */
  lemma {:induction false} ContentsAt<V>(H: Hashing, s: seq<Entry<V>>, j: nat)
    requires Table(H, s) && j < |s| && s[j].Live?
    ensures H.canon(s[j].key) in Contents(H, s) && Contents(H, s)[H.canon(s[j].key)] == s[j].value
  {
    ContentsPrefix(H, s, j, |s|);
    assert s[..|s|] == s;
  }

  lemma {:induction false} ContentsPrefix<V>(H: Hashing, s: seq<Entry<V>>, j: nat, n: nat)
    requires Table(H, s) && j < n <= |s| && s[j].Live?
    ensures H.canon(s[j].key) in Contents(H, s[..n]) && Contents(H, s[..n])[H.canon(s[j].key)] == s[j].value
    decreases n
  {
    assert s[..n][..n - 1] == s[..n - 1];
    if j < n - 1 {
      ContentsPrefix(H, s, j, n - 1);
    }
  }

  // ----- Changing one slot -------------------------------------------------------------------------------------

  lemma {:induction false} LiveUpdate<V>(s: seq<Entry<V>>, j: nat, e: Entry<V>)
    requires j < |s|
    ensures Filled(s[j := e]) + (if s[j].Live? then 1 else 0) == Filled(s) + (if e.Live? then 1 else 0)
  {
    if j == |s| - 1 {
      assert s[j := e][..|s| - 1] == s[..|s| - 1];
    } else {
      assert s[j := e][..|s| - 1] == s[..|s| - 1][j := e];
      LiveUpdate(s[..|s| - 1], j, e);
    }
  }

  lemma {:induction false} LiveBound<V>(s: seq<Entry<V>>)
    ensures Filled(s) <= |s|
    ensures Filled(s) == |s| <==> forall j :: 0 <= j < |s| ==> s[j].Live?
  {
    if s != [] {
      var rest := s[..|s| - 1];
      LiveBound(rest);
      assert forall j :: 0 <= j < |rest| ==> rest[j] == s[j];
    }
  }

  lemma {:induction false} NoneLive<V>(H: Hashing, s: seq<Entry<V>>)
    requires forall j :: 0 <= j < |s| ==> !s[j].Live?
    ensures Filled(s) == 0 && Contents(H, s) == map[]
  {
    if s != [] {
      NoneLive(H, s[..|s| - 1]);
    }
  }

  /** Replacing the value of a key, adding a new key in a free slot that is reached from its home, or leaving
      a tombstone: what is left stays findable. */
  ghost predicate Reaches<V>(H: Hashing, s: seq<Entry<V>>, k: Key, j: nat)
    requires j < |s|
  {
    var h := Home(H, k, |s|);
    forall d :: 0 <= d < Steps(h, j, |s|) ==> !s[At(h, d, |s|)].Empty?
  }

  lemma {:induction false} TableUpdate<V>(H: Hashing, s: seq<Entry<V>>, j: nat, e: Entry<V>)
    requires Table(H, s) && j < |s| && !e.Empty?
    requires e.Live? ==> Reaches(H, s, e.key, j)
    requires e.Live? ==> forall i :: 0 <= i < |s| && i != j ==> !LiveAs(H, s[i], H.canon(e.key))
    ensures Table(H, s[j := e])
  {
    var s' := s[j := e];
    forall i | 0 <= i < |s'| ensures Findable(H, s', i) {
      assert Findable(H, s, i);
    }
    forall a, b | 0 <= a < b < |s'| && s'[a].Live? && s'[b].Live? ensures H.canon(s'[a].key) != H.canon(s'[b].key) {
      if a == j {
        assert !LiveAs(H, s[b], H.canon(e.key));
      } else if b == j {
        assert !LiveAs(H, s[a], H.canon(e.key));
      }
    }
  }

  /** Setting a slot to an entry of a key that is in no other slot sets the key in the map. */
  lemma {:induction false} ContentsSet<V>(H: Hashing, s: seq<Entry<V>>, j: nat, k: Key, v: V)
    requires j < |s| && Table(H, s) && Table(H, s[j := Live(k, v)])
    requires s[j].Live? ==> H.canon(s[j].key) == H.canon(k)
    ensures Contents(H, s[j := Live(k, v)]) == Contents(H, s)[H.canon(k) := v]
  {
    var s' := s[j := Live(k, v)];
    var m, m' := Contents(H, s), Contents(H, s');
    ContentsAt(H, s', j);
    forall c ensures c in m' <==> c in m || c == H.canon(k) {
      ContentsIs(H, s, c);
      ContentsIs(H, s', c);
      if c in m && c != H.canon(k) {
        var i :| 0 <= i < |s| && LiveAs(H, s[i], c);
        assert LiveAs(H, s'[i], c);
      }
      if c in m' && c != H.canon(k) {
        var i :| 0 <= i < |s'| && LiveAs(H, s'[i], c);
        assert LiveAs(H, s[i], c);
      }
    }
    forall c | c in m && c != H.canon(k) ensures c in m' && m'[c] == m[c] {
      ContentsIs(H, s, c);
      var i :| 0 <= i < |s| && LiveAs(H, s[i], c);
      ContentsAt(H, s, i);
      assert s'[i] == s[i];
      ContentsAt(H, s', i);
    }
  }

  /** A tombstone in the place of an entry removes its key from the map. */
  lemma {:induction false} ContentsRemove<V>(H: Hashing, s: seq<Entry<V>>, j: nat)
    requires j < |s| && s[j].Live? && Table(H, s) && Table(H, s[j := Tombstone])
    ensures Contents(H, s[j := Tombstone]) == Contents(H, s) - {H.canon(s[j].key)}
  {
    var s', k := s[j := Tombstone], H.canon(s[j].key);
    var m, m' := Contents(H, s), Contents(H, s');
    forall c ensures c in m' <==> c in m && c != k {
      ContentsIs(H, s, c);
      ContentsIs(H, s', c);
      if c in m && c != k {
        var i :| 0 <= i < |s| && LiveAs(H, s[i], c);
        assert LiveAs(H, s'[i], c);
      }
      if c in m' {
        var i :| 0 <= i < |s'| && LiveAs(H, s'[i], c);
        assert i != j && LiveAs(H, s[i], c);
      }
    }
    forall c | c in m' ensures c in m && m'[c] == m[c] {
      ContentsIs(H, s', c);
      var i :| 0 <= i < |s'| && LiveAs(H, s'[i], c);
      ContentsAt(H, s', i);
      assert s[i] == s'[i];
      ContentsAt(H, s, i);
    }
  }

  /** The keys of the entries. */
  function KeysOf<V>(s: seq<Entry<V>>): set<Key> {
    set j | 0 <= j < |s| && s[j].Live? :: s[j].key
  }

  predicate NoTombstones<V>(s: seq<Entry<V>>) {
    forall j :: 0 <= j < |s| ==> !s[j].Tombstone?
  }

  /** The number of live entries is the size of the map. */
  lemma {:induction false} LiveIsSize<V>(H: Hashing, s: seq<Entry<V>>)
    requires Table(H, s)
    ensures |Contents(H, s)| == Filled(s)
  {
    SizePrefix(H, s, |s|);
    assert s[..|s|] == s;
  }

  lemma {:induction false} SizePrefix<V>(H: Hashing, s: seq<Entry<V>>, n: nat)
    requires Table(H, s) && n <= |s|
    ensures |Contents(H, s[..n])| == Filled(s[..n])
    decreases n
  {
    if n > 0 {
      assert s[..n][..n - 1] == s[..n - 1];
      SizePrefix(H, s, n - 1);
      var e := s[n - 1];
      if e.Live? {
        ContentsIs(H, s[..n - 1], H.canon(e.key));
      }
    }
  }

  // ----- Looking up --------------------------------------------------------------------------------------------

  /** The probe for a key from its `d`-th step on: it ends at an empty slot or after going all the way
      round. */
  function Search<V>(H: Hashing, s: seq<Entry<V>>, key: Key, d: nat): Option<nat>
    decreases |s| - d
  {
    if d >= |s| then None
    else
      var j := At(Home(H, key, |s|), d, |s|);
      if s[j].Empty? then None
      else if LiveAs(H, s[j], H.canon(key)) then Some(j)
      else Search(H, s, key, d + 1)
  }

  /** Equal keys have the same home in a table of `n` slots. */
  ghost predicate HomesAgree(H: Hashing, n: nat) {
    n > 0 ==> forall a, b :: H.canon(a) == H.canon(b) ==> Home(H, a, n) == Home(H, b, n)
  }

  /** An entry equal to the key, if there is one, hashes as the key does. */
  ghost predicate AgreesWith<V>(H: Hashing, s: seq<Entry<V>>, key: Key) {
    forall j :: 0 <= j < |s| && LiveAs(H, s[j], H.canon(key)) ==> H.hash(s[j].key) == H.hash(key)
  }

  lemma {:induction false} NewAgrees<V>(H: Hashing, s: seq<Entry<V>>, key: Key)
    requires H.canon(key) !in Contents(H, s)
    ensures AgreesWith(H, s, key)
  {
    ContentsIs(H, s, H.canon(key));
  }

  lemma {:induction false} SearchSound<V>(H: Hashing, s: seq<Entry<V>>, key: Key, d: nat)
    ensures var r := Search(H, s, key, d); r.Some? ==> r.value < |s| && LiveAs(H, s[r.value], H.canon(key))
    decreases |s| - d
  {
    if d < |s| {
      SearchSound(H, s, key, d + 1);
    }
  }

  /** A probe finds what is on the way, if nothing before it is empty. */
  lemma {:induction false} SearchFinds<V>(H: Hashing, s: seq<Entry<V>>, key: Key, d: nat, t: nat)
    requires d <= t < |s| && LiveAs(H, s[At(Home(H, key, |s|), t, |s|)], H.canon(key))
    requires forall e :: d <= e < t ==> !s[At(Home(H, key, |s|), e, |s|)].Empty?
    ensures Search(H, s, key, d).Some?
    decreases t - d
  {
    if d < t {
      SearchFinds(H, s, key, d + 1, t);
    }
  }

  /** A table of `n` slots answers right for every key. */
  ghost predicate AllRight(H: Hashing, s: seq<Entry<nat>>) {
    forall key :: Search(H, s, key, 0).Some? <==> H.canon(key) in Contents(H, s)
  }

  /** Lookups are right in all tables of `n` slots exactly when equal keys have the same home in them. For
      ranges they need not: `RangeKeys.RangeNotFound`. */
  lemma {:induction false} LookupsRight(H: Hashing, n: nat)
    requires n > 0
    ensures HomesAgree(H, n) <==> forall s: seq<Entry<nat>> :: |s| == n && Table(H, s) ==> AllRight(H, s)
  {
    if HomesAgree(H, n) {
      forall s: seq<Entry<nat>> | |s| == n && Table(H, s) ensures AllRight(H, s) {
        forall key ensures Search(H, s, key, 0).Some? <==> H.canon(key) in Contents(H, s) {
          FindsAll(H, s, key);
        }
      }
    }
    if forall s: seq<Entry<nat>> :: |s| == n && Table(H, s) ==> AllRight(H, s) {
      forall a, b | H.canon(a) == H.canon(b) ensures Home(H, a, n) == Home(H, b, n) {
        var s := OneEntry(H, a, n);
        assert AllRight(H, s);
        ContentsAt(H, s, Home(H, a, n));
        assert Search(H, s, b, 0).Some?;
      }
    }
  }

  lemma {:induction false} FindsAll(H: Hashing, s: seq<Entry<nat>>, key: Key)
    requires Table(H, s) && HomesAgree(H, |s|)
    ensures Search(H, s, key, 0).Some? <==> H.canon(key) in Contents(H, s)
  {
    ContentsIs(H, s, H.canon(key));
    SearchSound(H, s, key, 0);
    if H.canon(key) in Contents(H, s) {
      var j :| 0 <= j < |s| && LiveAs(H, s[j], H.canon(key));
      assert Findable(H, s, j);
      var h := Home(H, key, |s|);
      assert Home(H, s[j].key, |s|) == h;
      StepsAt(h, j, |s|);
      SearchFinds(H, s, key, 0, Steps(h, j, |s|));
    }
  }

  /** A table with one key. */
  lemma {:induction false} OneEntry(H: Hashing, a: Key, n: nat) returns (s: seq<Entry<nat>>)
    requires n > 0
    ensures |s| == n && Table(H, s) && s[Home(H, a, n)] == Live(a, 0)
    ensures forall j :: 0 <= j < n && j != Home(H, a, n) ==> s[j].Empty?
  {
    s := seq(n, i => Empty)[Home(H, a, n) := Live(a, 0)];
  }
}
