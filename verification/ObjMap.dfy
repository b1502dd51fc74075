/** Wren's maps: a hash table in an array that grows and shrinks. */
module ObjMap {
  import opened Wrappers
  import opened HashTable

  const MIN_CAPACITY := 16
  const GROW_FACTOR := 2
  const MAP_LOAD_PERCENT := 75

  /** Looks for an entry of `key`. If there is none, `at` is where one should go: the first tombstone on the
      way from the key's home, or the empty slot at the end of it. */
  method FindEntry<V>(H: Hashing, entries: array<Entry<V>>, key: Key) returns (found: bool, at: nat)
    requires entries.Length > 0 ==> Filled(entries[..]) < entries.Length
    ensures Search(H, entries[..], key, 0) == if found then Some(at) else None
    ensures entries.Length > 0 ==> at < entries.Length && Reaches(H, entries[..], key, at)
    ensures found ==> entries.Length > 0 && LiveAs(H, entries[at], H.canon(key))
    ensures !found && Table(H, entries[..]) && AgreesWith(H, entries[..], key) ==>
              forall j :: 0 <= j < entries.Length ==> !LiveAs(H, entries[j], H.canon(key))
    ensures !found && entries.Length > 0 ==> !entries[at].Live?
  {
    at := 0;
    if entries.Length == 0 {
      return false, 0;
    }
    ghost var s := entries[..];
    var n := entries.Length;
    var start: nat := H.hash(key) % n;
    var index := start;
    var tombstone: Option<nat> := None;
    ghost var d: nat := 0;
    while true
      invariant d < n && index == At(start, d, n)
      invariant Search(H, s, key, 0) == Search(H, s, key, d)
      invariant forall e :: 0 <= e < d ==> Passed(H, s, key, start, e)
      invariant tombstone.Some? ==>
                  tombstone.value < n && s[tombstone.value].Tombstone? && Steps(start, tombstone.value, n) < d
      invariant tombstone.None? ==> forall e :: 0 <= e < d ==> LiveStep(s, start, e)
      decreases n - d
    {
      hide Reaches, Table, Steps, At;
      NextSlot(start, d, n);
      StepsAt(start, index, n);
      assert entries[index] == s[index];
      var e := entries[index];
      if e.Empty? {
        if Table(H, s) && AgreesWith(H, s, key) {
          NotBeyond(H, s, key, start, d);
        }
        at := if tombstone.Some? then tombstone.value else index;
        PassedReaches(H, s, key, start, d, at);
        return false, at;
      } else if e.Tombstone? {
        if tombstone.None? {
          tombstone := Some(index);
        }
      } else if H.canon(e.key) == H.canon(key) {
        PassedReaches(H, s, key, start, d, index);
        return true, index;
      }
      assert Passed(H, s, key, start, d);
      index := (index + 1) % n;
      d := d + 1;
      if index == start {
        break;
      }
    }
    AllPassed(H, s, key, start);
    if tombstone.None? {
      NoneFree(s, start);
    }
    PassedReaches(H, s, key, start, n, tombstone.value);
    return false, tombstone.value;
  }

  predicate LiveStep<V>(s: seq<Entry<V>>, start: nat, d: nat) {
    At(start, d, |s|) < |s| && s[At(start, d, |s|)].Live?
  }

  lemma {:induction false} PassedReaches<V>(H: Hashing, s: seq<Entry<V>>, key: Key, start: nat, d: nat, j: nat)
    requires j < |s| && start == Home(H, key, |s|) && Steps(start, j, |s|) <= d
    requires forall e :: 0 <= e < d ==> Passed(H, s, key, start, e)
    ensures Reaches(H, s, key, j)
  {
    forall e | 0 <= e < Steps(start, j, |s|) ensures !s[At(start, e, |s|)].Empty? {
      assert Passed(H, s, key, start, e);
    }
  }

  /** The probe has gone past this slot: it is not empty and holds another key, or none. */
  ghost predicate Passed<V>(H: Hashing, s: seq<Entry<V>>, key: Key, start: nat, d: nat) {
    var j := At(start, d, |s|);
    j < |s| && !s[j].Empty? && !LiveAs(H, s[j], H.canon(key))
  }

  /** A probe that has come to an empty slot has not missed the key: an entry of it would be on the way. */
  lemma {:induction false} NotBeyond<V>(H: Hashing, s: seq<Entry<V>>, key: Key, start: nat, d: nat)
    requires d < |s| && Table(H, s) && AgreesWith(H, s, key) && start == Home(H, key, |s|)
    requires s[At(start, d, |s|)].Empty?
    requires forall e :: 0 <= e < d ==> Passed(H, s, key, start, e)
    ensures forall j :: 0 <= j < |s| ==> !LiveAs(H, s[j], H.canon(key))
  {
    forall j | 0 <= j < |s| ensures !LiveAs(H, s[j], H.canon(key)) {
      assert Findable(H, s, j);
      assert LiveAs(H, s[j], H.canon(key)) ==> Home(H, s[j].key, |s|) == start;
      StepsAt(start, j, |s|);
      var e := Steps(start, j, |s|);
      if e < d {
        assert Passed(H, s, key, start, e);
      }
    }
  }

  /** A probe that has gone all the way round has seen every slot. */
  lemma {:induction false} AllPassed<V>(H: Hashing, s: seq<Entry<V>>, key: Key, start: nat)
    requires start < |s| && forall e :: 0 <= e < |s| ==> Passed(H, s, key, start, e)
    ensures forall j :: 0 <= j < |s| ==> !LiveAs(H, s[j], H.canon(key)) && !s[j].Empty?
  {
    forall j | 0 <= j < |s| ensures !LiveAs(H, s[j], H.canon(key)) && !s[j].Empty? {
      StepsAt(start, j, |s|);
      assert Passed(H, s, key, start, Steps(start, j, |s|));
    }
  }

  /** If it met no tombstone either, the table is full. */
  lemma {:induction false} NoneFree<V>(s: seq<Entry<V>>, start: nat)
    requires start < |s| && forall e :: 0 <= e < |s| ==> LiveStep(s, start, e)
    ensures Filled(s) == |s|
  {
    forall j | 0 <= j < |s| ensures s[j].Live? {
      StepsAt(start, j, |s|);
      assert LiveStep(s, start, Steps(start, j, |s|));
    }
    LiveBound(s);
  }

  /** Sets `key` in a table that has room. Returns whether the key is new. */
  method InsertEntry<V>(H: Hashing, entries: array<Entry<V>>, key: Key, value: V) returns (isNew: bool)
    requires Table(H, entries[..]) && AgreesWith(H, entries[..], key)
    requires Filled(entries[..]) < entries.Length
    modifies entries
    ensures Table(H, entries[..])
    ensures KeysOf(entries[..]) <= old(KeysOf(entries[..])) + {key}
    ensures old(NoTombstones(entries[..])) ==> NoTombstones(entries[..])
    ensures Contents(H, entries[..]) == old(Contents(H, entries[..]))[H.canon(key) := value]
    ensures isNew <==> H.canon(key) !in old(Contents(H, entries[..]))
    ensures Filled(entries[..]) == old(Filled(entries[..])) + if isNew then 1 else 0
  {
    ghost var s := entries[..];
    var found, at := FindEntry(H, entries, key);
    ContentsIs(H, s, H.canon(key));
    ghost var k := if found then s[at].key else key;
    if found {
      entries[at] := Live(entries[at].key, value);
      assert LiveAs(H, s[at], H.canon(key));
      assert Findable(H, s, at);
    } else {
      entries[at] := Live(key, value);
    }
    isNew := !found;
    var e := entries[at];
    assert entries[..] == s[at := e];
    OthersDiffer(H, s, at, key, found);
    TableUpdate(H, s, at, e);
    ContentsSet(H, s, at, k, value);
    LiveUpdate(s, at, e);
  }

  lemma {:induction false} OthersDiffer<V>(H: Hashing, s: seq<Entry<V>>, at: nat, key: Key, found: bool)
    requires Table(H, s) && at < |s|
    requires if found then LiveAs(H, s[at], H.canon(key)) else forall j :: 0 <= j < |s| ==>
               !LiveAs(H, s[j], H.canon(key))
    ensures forall i :: 0 <= i < |s| && i != at ==> !LiveAs(H, s[i], H.canon(key))
  {
  }

  /** The sizes of tables are 32-bit numbers. */
  const U32 := 0x1_0000_0000

  /** How many entries a table of `n` slots should hold at most. The product is a 32-bit number too, so for
      very large tables this is too few. */
  function Load(n: nat): nat { n * MAP_LOAD_PERCENT % U32 / 100 }

  /** The largest capacity for which the product fits. */
  const MAX_EXACT := 57266230

  lemma {:induction false} LoadExact(n: nat)
    ensures Load(n) <= n * MAP_LOAD_PERCENT / 100
    ensures n <= MAX_EXACT ==> Load(n) == n * MAP_LOAD_PERCENT / 100
    ensures n <= 57266230 ==> Load(n) == 3 * n / 4
    ensures n > 0 ==> Load(n) < n
  {
  }

  /** The capacity of a table that is to hold `count` entries. */
  function CapacityFor(count: nat, capacity: nat): (n: nat)
    ensures capacity < U32 / GROW_FACTOR ==> n == if count <= Load(capacity) then capacity
                                                  else if capacity < 8 then 16 else 2 * capacity
  {
    if count <= Load(capacity) then capacity
    else
      var n := capacity * GROW_FACTOR % U32;
      if n < MIN_CAPACITY then MIN_CAPACITY else n
  }

  /** What agrees with entries agrees with them in another table. */
  lemma {:induction false} AgreesByKeys<V>(H: Hashing, s: seq<Entry<V>>, s': seq<Entry<V>>, key: Key)
    requires AgreesWith(H, s, key) && KeysOf(s') <= KeysOf(s)
    ensures AgreesWith(H, s', key)
  {
    forall j | 0 <= j < |s'| && LiveAs(H, s'[j], H.canon(key)) ensures H.hash(s'[j].key) == H.hash(key) {
      assert s'[j].key in KeysOf(s');
      var i :| 0 <= i < |s| && s[i].Live? && s[i].key == s'[j].key;
      assert LiveAs(H, s[i], H.canon(key));
    }
  }

  class ObjMap<V(0)> {
    const H: Hashing
    var entries: array<Entry<V>>
    var count: nat

    ghost predicate Valid()
      reads this, entries
    {
      && Table(H, entries[..]) && count == Filled(entries[..])
      && (entries.Length == 0 || entries.Length >= MIN_CAPACITY)
      && (if entries.Length == 0 then count == 0 else count < entries.Length)
      && (entries.Length <= MAX_EXACT ==> count <= entries.Length * MAP_LOAD_PERCENT / 100)
    }

    /** The map from keys to values, whatever objects the keys are. */
    ghost function Map(): map<nat, V>
      reads this, entries
    {
      Contents(H, entries[..])
    }

    constructor (H: Hashing)
      ensures Valid() && fresh(entries) && this.H == H && Map() == map[] && entries.Length == count == 0
    {
      this.H := H;
      entries := new Entry<V>[0];
      count := 0;
      new;
      assert entries[..] == [];
    }

    /** Moves the entries, without the tombstones, to an array of another capacity. */
    method Resize(capacity: nat)
      requires Table(H, entries[..]) && count == Filled(entries[..]) && count < capacity
      modifies this`entries
      ensures KeysOf(entries[..]) <= old(KeysOf(entries[..])) && NoTombstones(entries[..])
      ensures Table(H, entries[..]) && fresh(entries) && entries.Length == capacity
      ensures Map() == old(Map()) && Filled(entries[..]) == count
    {
      var bigger := new Entry<V>[capacity](i => Empty);
      ghost var s := entries[..];
      NoneLive(H, bigger[..]);
      var i := 0;
      assert s[..0] == [];
      while i < entries.Length
        invariant i <= entries.Length && s == entries[..] && fresh(bigger) && bigger.Length == capacity
        invariant Table(H, bigger[..]) && Contents(H, bigger[..]) == Contents(H, s[..i])
        invariant Filled(bigger[..]) == Filled(s[..i])
        invariant KeysOf(bigger[..]) <= KeysOf(s) && NoTombstones(bigger[..])
      {
        PrefixFits(H, s, i);
        if entries[i].Live? {
          NewAgrees(H, bigger[..], entries[i].key);
          assert s[i].key in KeysOf(s);
          var isNew := InsertEntry(H, bigger, entries[i].key, entries[i].value);
        }
        i := i + 1;
      }
      assert s[..i] == s;
      entries := bigger;
    }

    /** The value of a key, or none. */
    method Get(key: Key) returns (r: Option<V>)
      requires Valid()
      ensures r.Some? <==> Search(H, entries[..], key, 0).Some?
      ensures r.Some? ==> H.canon(key) in Map() && r.value == Map()[H.canon(key)]
      ensures AgreesWith(H, entries[..], key) ==> (r.Some? <==> H.canon(key) in Map())
    {
      var found, at := FindEntry(H, entries, key);
      ContentsIs(H, entries[..], H.canon(key));
      if found {
        assert LiveAs(H, entries[..][at], H.canon(key));
        ContentsAt(H, entries[..], at);
        return Some(entries[at].value);
      }
      return None;
    }

    /** Sets a key; an entry of an equal one, if there is any, must hash as it does. Doubling the capacity must not wrap
        around. */
    method Set(key: Key, value: V)
      requires Valid() && entries.Length < U32 / GROW_FACTOR && AgreesWith(H, entries[..], key)
      modifies this, entries
      ensures Valid() && (entries == old(entries) || fresh(entries))
      ensures Map() == old(Map())[H.canon(key) := value]
      ensures count == old(count) + if H.canon(key) in old(Map()) then 0 else 1
      ensures entries.Length == old(CapacityFor(count + 1, entries.Length))
      ensures KeysOf(entries[..]) <= old(KeysOf(entries[..])) + {key}
      ensures old(NoTombstones(entries[..])) ==> NoTombstones(entries[..])
    {
      LoadExact(entries.Length);
      if count + 1 > Load(entries.Length) {
        var capacity := entries.Length * GROW_FACTOR % U32;
        if capacity < MIN_CAPACITY {
          capacity := MIN_CAPACITY;
        }
        Growing(entries.Length, count, capacity);
        Resize(capacity);
        AgreesByKeys(H, old(entries[..]), entries[..], key);
      }
      var isNew := InsertEntry(H, entries, key, value);
      if isNew {
        count := count + 1;
      }
    }

    method Clear()
      modifies this`entries, this`count
      ensures fresh(entries) && entries.Length == 0 && count == 0
      ensures Valid() && Map() == map[]
    {
      entries := new Entry<V>[0];
      count := 0;
      assert entries[..] == [];
    }

    /** Removes a key and returns its value, or none. */
    method RemoveKey(key: Key) returns (r: Option<V>)
      requires Valid()
      modifies this, entries
      ensures Valid() && (entries == old(entries) || fresh(entries))
      ensures r.Some? ==> H.canon(key) in old(Map()) && r.value == old(Map())[H.canon(key)]
      ensures old(AgreesWith(H, entries[..], key)) ==> (r.Some? <==> H.canon(key) in old(Map()))
      ensures Map() == if r.Some? then old(Map()) - {H.canon(key)} else old(Map())
    {
      ghost var s := entries[..];
      var found, at := FindEntry(H, entries, key);
      ContentsIs(H, s, H.canon(key));
      if !found {
        return None;
      }
      assert LiveAs(H, s[at], H.canon(key));
      ContentsAt(H, s, at);
      var value := entries[at].value;
      entries[at] := Tombstone;
      assert entries[..] == s[at := Tombstone];
      TableUpdate(H, s, at, Tombstone);
      ContentsRemove(H, s, at);
      LiveUpdate(s, at, Tombstone);
      count := count - 1;
      if count == 0 {
        LiveIsSize(H, entries[..]);
        Clear();
      } else if entries.Length > MIN_CAPACITY && count < Load(entries.Length / GROW_FACTOR) {
        var capacity := entries.Length / GROW_FACTOR;
        if capacity < MIN_CAPACITY {
          capacity := MIN_CAPACITY;
        }
        Shrinking(entries.Length, count, capacity);
        Resize(capacity);
      }
      return Some(value);
    }
  }

  lemma {:induction false} Growing(n: nat, count: nat, capacity: nat)
    requires n == 0 ==> count == 0
    requires n > 0 ==> n >= MIN_CAPACITY && count < n < U32 / GROW_FACTOR
    requires n <= MAX_EXACT ==> count <= n * MAP_LOAD_PERCENT / 100
    requires capacity == if n * GROW_FACTOR % U32 < MIN_CAPACITY then MIN_CAPACITY else n * GROW_FACTOR % U32
    ensures capacity >= MIN_CAPACITY && count + 1 < capacity
    ensures capacity <= MAX_EXACT ==> count + 1 <= capacity * MAP_LOAD_PERCENT / 100
  {
  }

  lemma {:induction false} Shrinking(n: nat, count: nat, capacity: nat)
    requires n >= MIN_CAPACITY && count < Load(n / GROW_FACTOR)
    requires capacity == if n / GROW_FACTOR < MIN_CAPACITY then MIN_CAPACITY else n / GROW_FACTOR
    ensures capacity >= MIN_CAPACITY && count < capacity && count <= capacity * MAP_LOAD_PERCENT / 100
  {
    LoadExact(n / GROW_FACTOR);
  }

  /** While entries are copied, the part copied so far is smaller than the table it came from. */
  lemma {:induction false} PrefixFits<V>(H: Hashing, s: seq<Entry<V>>, i: nat)
    requires Table(H, s) && i < |s|
    ensures Contents(H, s[..i + 1])
            == if s[i].Live? then Contents(H, s[..i])[H.canon(s[i].key) := s[i].value] else Contents(H, s[..i])
    ensures Filled(s[..i + 1]) == Filled(s[..i]) + if s[i].Live? then 1 else 0
    ensures Filled(s[..i + 1]) <= Filled(s)
    ensures s[i].Live? ==> H.canon(s[i].key) !in Contents(H, s[..i])
  {
    assert s[..i + 1][..i] == s[..i];
    FilledPrefix(s, i + 1);
    if s[i].Live? {
      ContentsIs(H, s[..i], H.canon(s[i].key));
    }
  }

  lemma {:induction false} FilledPrefix<V>(s: seq<Entry<V>>, i: nat)
    requires i <= |s|
    ensures Filled(s[..i]) <= Filled(s)
    decreases |s| - i
  {
    if i < |s| {
      assert s[..i + 1][..i] == s[..i];
      FilledPrefix(s, i + 1);
    } else {
      assert s[..i] == s;
    }
  }
}
