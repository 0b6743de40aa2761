/** ui/src/lib/ItemStore.js: the UI's cache of items keyed by their hash,
    kept as an array of entries, most recently used first, and a map from key
    to entry. */
module ItemStore {

  import opened Common
  import opened JsArray
  import Hub

  /** A JavaScript number, as far as the store compares it with lengths. */
  datatype Number = Finite(x: real) | NaN | Infinity | NegInfinity

  /** `Number.MAX_VALUE`, the largest finite double: 2^1024 - 2^971. */
  const MaxValue: real := 179769313486231570814527423731704356798070567525844996598917476803157260780028538760589558632766878171540458953514382464234321326889464182768467546703537516986049910576551282076245490090389328944075868508455133942304583236903222948165808559332123348274797826204144723168738177180919299881250404026184124858368.0

  /** `len > n`: NaN compares false with everything. */
  predicate Exceeds(len: nat, n: Number) {
    match n
    case Finite(x) => len as real > x
    case NaN => false
    case Infinity => false
    case NegInfinity => true
  }

  /** `n < 1`. */
  predicate BelowOne(n: Number) {
    match n
    case Finite(x) => x < 1.0
    case NaN => false
    case Infinity => false
    case NegInfinity => true
  }

  /** The argument of `setCapacity`: something of type "number", or not. */
  datatype CapArg = NumberArg(n: Number) | OtherArg

  /** What `setCapacity` throws. */
  const CapacityError: Error := TypeError("n must be a number greater than 0")

  /** An entry object `{k, v}`; `id` stands for its identity, since `get`
      finds it in the array with `===`. */
  datatype Entry = Entry(id: nat, k: string, v: Hub.Value)

  /** The store's state: `_arr`, `_map`, `_cap`, and the identity the next
      entry object will have. */
  datatype Cache = Cache(arr: seq<Entry>, index: map<string, Entry>, cap: Number, next: nat)

  /** What `dump` returns. */
  datatype Dumped = Dumped(cap: Number, data: seq<Entry>)

  /** The state `reset` leaves. */
  function Empty(next: nat): Cache {
    Cache([], map[], Finite(MaxValue), next)
  }

  /** The store's invariant: each entry object is in the array once and is
      older than the next one; a mapped key maps to an entry with that key
      that is in the array; the capacity is not below one and the array does
      not exceed it. */
  predicate Good(c: Cache) {
    && NoDuplicates(c.arr)
    && (forall e :: e in c.arr ==> e.id < c.next)
    && (forall key :: key in c.index ==> c.index[key].k == key && c.index[key] in c.arr)
    && !BelowOne(c.cap)
    && !Exceeds(|c.arr|, c.cap)
  }

  /** The keys of some entries. */
  function KeysOf(s: seq<Entry>): set<string> {
    set e | e in s :: e.k
  }

  /** `put` up to the capacity check: a new entry at the head, and the key
      mapped to it. */
  function Unshift(c: Cache, key: string, value: Hub.Value): Cache {
    var item := Entry(c.next, key, value);
    c.(arr := [item] + c.arr, index := c.index[key := item], next := c.next + 1)
  }

  /** `put` as written: the evicted entry is unmapped through
      `_map[oldest.Hash]`, and an entry has no `Hash`, so the key deleted is
      always "undefined". */
  function AfterPutAsWritten(c: Cache, key: string, value: Hub.Value): (r: (Cache, Option<Entry>))
    ensures r.1.Some? <==> Exceeds(|c.arr| + 1, c.cap)
    ensures r.1.Some? ==> r.0.index == c.index[key := Entry(c.next, key, value)] - {UndefinedKey}
  {
    var u := Unshift(c, key, value);
    if Exceeds(|u.arr|, u.cap) then
      var oldest := u.arr[|u.arr| - 1];
      (u.(arr := u.arr[..|u.arr| - 1], index := u.index - {UndefinedKey}), Some(oldest))
    else (u, None)
  }

  /** `put` with the evicted entry's own key unmapped. */
  function AfterPut(c: Cache, key: string, value: Hub.Value): (r: (Cache, Option<Entry>))
    ensures r.1.Some? <==> Exceeds(|c.arr| + 1, c.cap)
    ensures r.0.cap == c.cap && r.0.next == c.next + 1
    ensures r.1.None? ==> r.0.arr == [Entry(c.next, key, value)] + c.arr && r.0.index == c.index[key := Entry(c.next, key, value)]
    ensures r.1.Some? ==> r.0.index == c.index[key := Entry(c.next, key, value)] - {r.1.value.k}
  {
    var u := Unshift(c, key, value);
    if Exceeds(|u.arr|, u.cap) then
      var oldest := u.arr[|u.arr| - 1];
      (u.(arr := u.arr[..|u.arr| - 1], index := u.index - {oldest.k}), Some(oldest))
    else (u, None)
  }

  /** `get`: a mapped key gives its value and its entry moves to the head; an
      entry that is not in the array is not found by `indexOf`, and
      `splice(-1, 1)` then drops the last entry instead. */
  function AfterGet(c: Cache, key: string): (r: (Cache, Option<Hub.Value>))
    ensures key !in c.index ==> r == (c, None)
    ensures key in c.index ==> r.1 == Some(c.index[key].v) && r.0.index == c.index && r.0.cap == c.cap && r.0.next == c.next
    ensures key in c.index ==> |r.0.arr| > 0 && r.0.arr[0] == c.index[key]
  {
    if key in c.index then
      var item := c.index[key];
      (c.(arr := [item] + SpliceOne(c.arr, IndexOf(c.arr, item))), Some(item.v))
    else (c, None)
  }

  /** The `setCapacity` loop: pop the tail, unmapping its key, while the
      array is longer than `n`. What is left is the longest prefix within
      `n`, and exactly the popped entries' keys are unmapped. */
  function Truncate(arr: seq<Entry>, index: map<string, Entry>, n: Number): (r: (seq<Entry>, map<string, Entry>))
    requires !BelowOne(n)
    ensures |r.0| <= |arr| && r.0 == arr[..|r.0|] && !Exceeds(|r.0|, n)
    ensures |r.0| < |arr| ==> Exceeds(|r.0| + 1, n)
    ensures r.1.Keys == index.Keys - KeysOf(arr[|r.0|..])
    ensures forall key :: key in r.1 ==> r.1[key] == index[key]
    decreases |arr|
  {
    if Exceeds(|arr|, n) then
      var item := arr[|arr| - 1];
      var r := Truncate(arr[..|arr| - 1], index - {item.k}, n);
      assert arr[..|arr| - 1][..|r.0|] == arr[..|r.0|];
      assert arr[|r.0|..] == arr[..|arr| - 1][|r.0|..] + [item];
      assert KeysOf(arr[|r.0|..]) == KeysOf(arr[..|arr| - 1][|r.0|..]) + {item.k};
      r
    else
      assert arr[|arr|..] == [];
      (arr, index)
  }

  /** `setCapacity`: anything but a number of at least one (NaN and Infinity
      pass) is refused with a TypeError and nothing changes. */
  function AfterSetCapacity(c: Cache, n: CapArg): (r: Result<Cache>)
    ensures r.Err? <==> n.OtherArg? || BelowOne(n.n)
    ensures r.Err? ==> r.error == CapacityError
    ensures r.Ok? ==> r.value.cap == n.n && r.value.next == c.next && |r.value.arr| <= |c.arr|
  {
    if n.OtherArg? || BelowOne(n.n) then Err(CapacityError)
    else
      var (arr, index) := Truncate(c.arr, c.index, n.n);
      Ok(Cache(arr, index, n.n, c.next))
  }

  /** `reset` establishes the invariant. */
  lemma EmptyIsGood(next: nat)
    ensures Good(Empty(next))
  {
  }

  /** `put` keeps the invariant; the new entry is at the head; without an
      eviction the older entries follow unchanged (an older entry for the
      same key included) and the key maps to the new entry; with one, the
      tail entry is the one returned and its key is no longer mapped. */
  lemma PutKeepsGood(c: Cache, key: string, value: Hub.Value)
    requires Good(c)
    ensures var (d, oldest) := AfterPut(c, key, value);
      && Good(d)
      && |d.arr| > 0 && d.arr[0] == Entry(c.next, key, value)
      && (oldest.None? ==> d.arr[1..] == c.arr && d.index[key] == d.arr[0])
      && (oldest.Some? ==> |c.arr| > 0 && oldest.value == c.arr[|c.arr| - 1] && d.arr[1..] == c.arr[..|c.arr| - 1])
      && (oldest.Some? ==> oldest.value.k !in d.index)
  {
    var item := Entry(c.next, key, value);
    var (d, oldest) := AfterPut(c, key, value);
    assert item !in c.arr;
    PrependNoDuplicates(c.arr, item);
    if oldest.Some? {
      assert |c.arr| > 0 by {
        assert c.cap.Finite? ==> c.cap.x >= 1.0;
      }
      var u := [item] + c.arr;
      assert d.arr == u[..|u| - 1];
      assert d.arr[1..] == c.arr[..|c.arr| - 1];
      forall key' | key' in d.index
        ensures d.index[key'].k == key' && d.index[key'] in d.arr
      {
        var e := d.index[key'];
        assert e in u && e.k == key';
        assert key' != oldest.value.k;
        assert u == d.arr + [oldest.value];
      }
    }
  }

  /** `get` of a mapped key in a good store moves its entry to the head and
      keeps the rest in order: the array is the same entries, rearranged,
      and the invariant holds. */
  lemma GetKeepsGood(c: Cache, key: string)
    requires Good(c) && key in c.index
    ensures var d := AfterGet(c, key).0;
      && Good(d)
      && d.arr == [c.index[key]] + Without(c.arr, c.index[key])
      && multiset(d.arr) == multiset(c.arr)
  {
    var item := c.index[key];
    var w := Without(c.arr, item);
    SpliceIndexOfUnique(c.arr, item);
    WithoutMultiset(c.arr, item);
    PrependNoDuplicates(w, item);
    var d := AfterGet(c, key).0;
    assert d.arr == [item] + w;
    forall e | e in d.arr
      ensures e in c.arr
    {
      if e != item {
        assert e in w;
      }
    }
    forall e | e in c.arr
      ensures e in d.arr
    {
      if e != item {
        assert e in w;
      }
    }
  }

  /** A second `get` of the same key changes nothing more. */
  lemma GetTwice(c: Cache, key: string)
    requires Good(c) && key in c.index
    ensures var d := AfterGet(c, key).0; AfterGet(d, key) == AfterGet(c, key)
  {
    var d := AfterGet(c, key).0;
    assert IndexOf(d.arr, d.arr[0]) == 0;
    assert [d.arr[0]] + (d.arr[..0] + d.arr[1..]) == d.arr;
  }

  /** `setCapacity` keeps the invariant. */
  lemma SetCapacityKeepsGood(c: Cache, n: CapArg)
    requires Good(c) && AfterSetCapacity(c, n).Ok?
    ensures Good(AfterSetCapacity(c, n).value)
  {
    var d := AfterSetCapacity(c, n).value;
    var m := |d.arr|;
    assert c.arr == d.arr + c.arr[m..];
    forall key | key in d.index
      ensures d.index[key].k == key && d.index[key] in d.arr
    {
      var e := c.index[key];
      assert e in c.arr && e.k == key;
      assert key !in KeysOf(c.arr[m..]);
      assert e !in c.arr[m..];
    }
  }

  /** The evicted key stays mapped when `put` is run as written: with
      capacity one, putting "a" and then "b" evicts the "a" entry, yet "a"
      still maps to it; a `get` of "a" then returns the evicted value and
      drops the live "b" entry from the array. */
  lemma EvictedKeyStaysMapped(v: Hub.Value, w: Hub.Value)
    ensures var c := Cache([], map[], Finite(1.0), 0);
      var (c1, _) := AfterPutAsWritten(c, "a", v);
      var (c2, oldest) := AfterPutAsWritten(c1, "b", w);
      && Good(c) && Good(c1)
      && oldest == Some(Entry(0, "a", v))
      && "a" in c2.index && c2.index["a"] !in c2.arr && !Good(c2)
      && AfterGet(c2, "a") == (c2.(arr := [Entry(0, "a", v)]), Some(v))
  {
    var c := Cache([], map[], Finite(1.0), 0);
    var (c1, _) := AfterPutAsWritten(c, "a", v);
    assert c1.arr == [Entry(0, "a", v)];
    var (c2, oldest) := AfterPutAsWritten(c1, "b", w);
    assert c2.arr == [Entry(1, "b", w)];
    assert "a" != UndefinedKey;
    assert IndexOf(c2.arr, Entry(0, "a", v)) == -1;
  }

  /** The corrected `put` unmaps the evicted key in the same run. */
  lemma EvictedKeyIsUnmapped(v: Hub.Value, w: Hub.Value)
    ensures var c := Cache([], map[], Finite(1.0), 0);
      var (c1, _) := AfterPut(c, "a", v);
      var (c2, oldest) := AfterPut(c1, "b", w);
      && oldest == Some(Entry(0, "a", v))
      && "a" !in c2.index && Good(c2)
      && AfterGet(c2, "a") == (c2, None)
  {
    var c := Cache([], map[], Finite(1.0), 0);
    PutKeepsGood(c, "a", v);
    var (c1, _) := AfterPut(c, "a", v);
    assert c1.arr == [Entry(0, "a", v)];
    PutKeepsGood(c1, "b", w);
  }

  /** `ItemStore`: the cache object. */
  class ItemStore {
    /** `_arr`: the entries, most recently used first. */
    var arr: seq<Entry>
    /** `_map`: key to entry. */
    var index: map<string, Entry>
    /** `_cap`. */
    var cap: Number
    /** The identity the next entry object gets. */
    var next: nat

    function State(): Cache
      reads this
    {
      Cache(arr, index, cap, next)
    }

    predicate Valid()
      reads this
    {
      Good(State())
    }

    constructor ()
      ensures State() == Empty(0) && Valid()
    {
      arr := [];
      index := map[];
      cap := Finite(MaxValue);
      next := 0;
    }

    /** `reset`: an empty array and map, and the largest capacity. */
    method Reset()
      modifies this
      ensures State() == Empty(old(next)) && Valid()
    {
      index := map[];
      arr := [];
      cap := Finite(MaxValue);
    }

    /** `dump`: the capacity and the array, which a good store keeps within
        that capacity, so setting it again drops nothing. */
    function Dump(): (d: Dumped)
      reads this
      ensures d.cap == cap && d.data == arr
      ensures Valid() ==> !Exceeds(|d.data|, d.cap) && !BelowOne(d.cap)
    {
      Dumped(cap, arr)
    }

    /** `put`, corrected: returns the evicted entry, if any. */
    method Put(key: string, value: Hub.Value) returns (oldest: Option<Entry>)
      modifies this
      ensures (State(), oldest) == AfterPut(old(State()), key, value)
      ensures old(Valid()) ==> Valid()
    {
      ghost var c := State();
      var item := Entry(next, key, value);
      next := next + 1;
      index := index[key := item];
      arr := [item] + arr;
      oldest := None;
      if Exceeds(|arr|, cap) {
        var last := arr[|arr| - 1];
        arr := arr[..|arr| - 1];
        index := index - {last.k};
        oldest := Some(last);
      }
      if Good(c) {
        PutKeepsGood(c, key, value);
      }
    }

    /** `put` as written. */
    method PutAsWritten(key: string, value: Hub.Value) returns (oldest: Option<Entry>)
      modifies this
      ensures (State(), oldest) == AfterPutAsWritten(old(State()), key, value)
    {
      var item := Entry(next, key, value);
      next := next + 1;
      index := index[key := item];
      arr := [item] + arr;
      oldest := None;
      if Exceeds(|arr|, cap) {
        var last := arr[|arr| - 1];
        arr := arr[..|arr| - 1];
        index := index - {UndefinedKey};
        oldest := Some(last);
      }
    }

    /** `get`: the value of a mapped key (None for undefined), its entry
        moved to the head. */
    method Get(key: string) returns (value: Option<Hub.Value>)
      modifies this
      ensures (State(), value) == AfterGet(old(State()), key)
      ensures old(Valid()) && key in old(index) ==> Valid() && multiset(arr) == multiset(old(arr))
    {
      if key in index {
        var item := index[key];
        if Valid() {
          GetKeepsGood(State(), key);
        }
        var idx := IndexOf(arr, item);
        arr := SpliceOne(arr, idx);
        arr := [item] + arr;
        return Some(item.v);
      }
      return None;
    }

    /** `setCapacity`: refuses what is not a number of at least one;
        otherwise sets the capacity and pops entries off the tail, unmapping
        their keys, until the array fits. */
    method SetCapacity(n: CapArg) returns (err: Option<Error>)
      modifies this
      ensures AfterSetCapacity(old(State()), n).Err? ==> err == Some(CapacityError) && State() == old(State())
      ensures AfterSetCapacity(old(State()), n).Ok? ==> err.None? && State() == AfterSetCapacity(old(State()), n).value
      ensures old(Valid()) ==> Valid()
    {
      if n.OtherArg? || BelowOne(n.n) {
        return Some(CapacityError);
      }
      ghost var c := State();
      cap := n.n;
      var current := |arr|;
      while Exceeds(current, n.n)
        invariant current == |arr|
        invariant cap == n.n && next == c.next
        invariant Truncate(arr, index, n.n) == Truncate(c.arr, c.index, n.n)
        decreases current
      {
        var item := arr[|arr| - 1];
        arr := arr[..|arr| - 1];
        index := index - {item.k};
        current := current - 1;
      }
      err := None;
      if Good(c) {
        SetCapacityKeepsGood(c, n);
      }
    }
  }
}
