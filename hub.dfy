/** ui/src/lib/Hub.js: the UI's single state tree, addressed by dotted paths,
    with one change notification scheduled per burst of changes. */
module Hub {

  import opened Common

  /** A JavaScript value as the hub stores it: primitives and plain objects. */
  datatype Value =
    | Undefined
    | Null
    | Bool(b: bool)
    | Num(n: real)
    | Str(s: string)
    | Obj(fields: map<string, Value>)

  /** The TypeErrors the hub's code can throw. */
  const ReadOfNothing: Error := TypeError("Cannot read properties of undefined or null")
  const InOnPrimitive: Error := TypeError("Cannot use 'in' operator on a primitive")
  const WriteToPrimitive: Error := TypeError("Cannot create property on a primitive")
  const KeysOfNull: Error := TypeError("Cannot convert undefined or null to object")

  /** JavaScript truthiness (NaN and -0 are not modelled). */
  predicate Truthy(v: Value) {
    match v
    case Undefined => false
    case Null => false
    case Bool(b) => b
    case Num(n) => n != 0.0
    case Str(s) => s != ""
    case Obj(_) => true
  }

  /** `v[key]`: an object's own property or undefined; undefined and null
      throw; other primitives have no properties here. */
  function Member(v: Value, key: string): (r: Result<Value>)
    ensures r.Err? <==> v == Undefined || v == Null
    ensures r.Err? ==> r.error == ReadOfNothing
    ensures v.Obj? ==> r == Ok(if key in v.fields then v.fields[key] else Undefined)
  {
    match v
    case Obj(m) => Ok(if key in m then m[key] else Undefined)
    case Undefined => Err(ReadOfNothing)
    case Null => Err(ReadOfNothing)
    case _ => Ok(Undefined)
  }

  // ---------------------------------------------------------------------------
  // paths

  /** A path argument: nothing (or another falsy value), a dotted string, or
      an array of keys. */
  datatype Ref = NoRef | RefString(s: string) | RefArray(keys: seq<string>)

  predicate RefTruthy(r: Ref) {
    r.RefArray? || (r.RefString? && r.s != "")
  }

  /** `replace(/(^\.|\.$)/g, "")`: one leading and one trailing dot go. */
  function StripDots(s: string): (r: string)
    ensures |r| <= |s|
    ensures r == s <==> (s == [] || (s[0] != '.' && s[|s| - 1] != '.'))
  {
    var head := if |s| > 0 && s[0] == '.' then s[1..] else s;
    if |head| > 0 && head[|head| - 1] == '.' then head[..|head| - 1] else head
  }

  /** `split(".")`. */
  function Split(s: string): (r: seq<string>)
    ensures |r| >= 1
    ensures forall i :: 0 <= i < |r| ==> '.' !in r[i]
    ensures |r| == 1 <==> '.' !in s
  {
    if s == [] then [""]
    else
      var rest := Split(s[1..]);
      if s[0] == '.' then [""] + rest
      else [[s[0]] + rest[0]] + rest[1..]
  }

  /** `join(".")`. */
  function JoinDots(parts: seq<string>): string
    requires |parts| >= 1
  {
    if |parts| == 1 then parts[0] else parts[0] + "." + JoinDots(parts[1..])
  }

  /** `join` of a first part and the rest. */
  lemma JoinDotsCons(x: string, tail: seq<string>)
    ensures JoinDots([x] + tail) == if tail == [] then x else x + "." + JoinDots(tail)
  {
    assert ([x] + tail)[0] == x;
    assert ([x] + tail)[1..] == tail;
  }

  /** Putting a character in front of the first part puts it in front of
      the joined string. */
  lemma JoinDotsPrepend(c: char, first: string, tail: seq<string>)
    ensures JoinDots([[c] + first] + tail) == [c] + JoinDots([first] + tail)
  {
    JoinDotsCons([c] + first, tail);
    JoinDotsCons(first, tail);
    if tail != [] {
      var rest := JoinDots(tail);
      assert ([c] + first) + "." + rest == [c] + (first + "." + rest);
    }
  }

  /** Splitting on dots loses nothing: joining the parts gives the string back. */
  lemma {:induction false} SplitJoin(s: string)
    ensures JoinDots(Split(s)) == s
    decreases |s|
  {
    if s != [] {
      var rest := Split(s[1..]);
      SplitJoin(s[1..]);
      if s[0] == '.' {
        JoinDotsCons("", rest);
      } else {
        assert [rest[0]] + rest[1..] == rest;
        JoinDotsPrepend(s[0], rest[0], rest[1..]);
      }
      assert s == [s[0]] + s[1..];
    }
  }

  /** Splitting a string with one more character in front. */
  lemma SplitCons(c: char, t: string)
    ensures c == '.' ==> Split([c] + t) == [""] + Split(t)
    ensures c != '.' ==> Split([c] + t) == [[c] + Split(t)[0]] + Split(t)[1..]
  {
    assert ([c] + t)[1..] == t;
  }

  /** Joining dot-free keys and splitting gives the keys back. */
  lemma {:induction false} JoinSplit(parts: seq<string>)
    requires |parts| >= 1 && forall i :: 0 <= i < |parts| ==> '.' !in parts[i]
    ensures Split(JoinDots(parts)) == parts
    decreases |parts|, |parts[0]|
  {
    if |parts| == 1 {
      SplitNoDot(parts[0]);
    } else if parts[0] == "" {
      var tail := parts[1..];
      JoinSplit(tail);
      assert parts == [""] + tail;
      JoinDotsCons("", tail);
      SplitCons('.', JoinDots(tail));
    } else {
      var p0 := parts[0];
      var shorter := [p0[1..]] + parts[1..];
      assert shorter[1..] == parts[1..];
      JoinSplit(shorter);
      assert [p0[0]] + p0[1..] == p0;
      assert [p0] + parts[1..] == parts;
      JoinDotsPrepend(p0[0], p0[1..], parts[1..]);
      SplitCons(p0[0], JoinDots(shorter));
    }
  }

  lemma {:induction false} SplitNoDot(s: string)
    requires '.' !in s
    ensures Split(s) == [s]
    decreases |s|
  {
    if s != [] {
      SplitNoDot(s[1..]);
      assert [s[0]] + s[1..] == s;
    }
  }

  /** The keys a truthy path names. */
  function Keys(r: Ref): seq<string>
    requires RefTruthy(r)
  {
    if r.RefArray? then r.keys else Split(StripDots(r.s))
  }

  /** The keys `_set` walks: an empty array ends up using the key
      "undefined", as `v[k[0]]` does with `k[0]` undefined. */
  function SetKeys(r: Ref): (ks: seq<string>)
    requires RefTruthy(r)
    ensures |ks| >= 1
  {
    if Keys(r) == [] then ["undefined"] else Keys(r)
  }

  // ---------------------------------------------------------------------------
  // reading and writing the tree

  /** `get`'s walk: follow the keys, stopping at the first falsy value. */
  function Lookup(v: Value, keys: seq<string>): (r: Result<Value>)
    ensures r.Err? <==> keys != [] && (v == Undefined || v == Null)
    ensures r.Err? ==> r.error == ReadOfNothing
    decreases |keys|
  {
    if keys == [] then Ok(v)
    else
      match Member(v, keys[0])
      case Err(e) => Err(e)
      case Ok(c) => if Truthy(c) then Lookup(c, keys[1..]) else Ok(c)
  }

  /** The value at a path through objects, undefined when the path leaves
      them. */
  function At(v: Value, keys: seq<string>): Value
    decreases |keys|
  {
    if keys == [] then v
    else
      match v
      case Obj(m) => At(if keys[0] in m then m[keys[0]] else Undefined, keys[1..])
      case _ => Undefined
  }

  /** `JSON.stringify`: a string, or undefined for undefined. */
  type Stringify = Value -> Option<string>

  /** The last step of `_set`: delete the key when the value is undefined,
      otherwise store it; the change flag compares the old and new values. */
  function SetLeaf(v: Value, key: string, val: Value, stringify: Stringify): (r: Result<(Value, bool)>)
  {
    match v
    case Obj(m) =>
      var was := if key in m then m[key] else Undefined;
      if val == Undefined then Ok((Obj(m - {key}), was != Undefined))
      else Ok((Obj(m[key := val]), stringify(was) != stringify(val)))
    case Undefined => Err(ReadOfNothing)
    case Null => Err(ReadOfNothing)
    case _ => if val == Undefined then Ok((v, false)) else Err(WriteToPrimitive)
  }

  /** `_set` on the tree `v`: missing objects along the path are created; a
      path through a primitive throws. After it the path holds `val`; the
      change flag says whether the value there was defined (for an unset)
      or serialised differently (for a set); keys beside the path keep their
      values. */
  function SetIn(v: Value, keys: seq<string>, val: Value, stringify: Stringify): (r: Result<(Value, bool)>)
    requires |keys| >= 1
    ensures r.Err? ==> r.error.TypeError?
    ensures r.Ok? ==> At(r.value.0, keys) == val
    ensures r.Ok? && val == Undefined ==> r.value.1 == (At(v, keys) != Undefined)
    ensures r.Ok? && val != Undefined ==> r.value.1 == (stringify(At(v, keys)) != stringify(val))
    ensures r.Ok? && (val != Undefined || |keys| > 1) ==> r.value.0.Obj?
    ensures v.Obj? && keys[0] !in v.fields ==> r.Ok?
    ensures r.Ok? && v.Obj? ==>
              (r.value.0.Obj? &&
               forall k :: k != keys[0] ==> (k in v.fields <==> k in r.value.0.fields) &&
                                            (k in v.fields ==> r.value.0.fields[k] == v.fields[k]))
    decreases |keys|
  {
    if |keys| == 1 then SetLeaf(v, keys[0], val, stringify)
    else
      match v
      case Obj(m) =>
        var child := if keys[0] in m then m[keys[0]] else Obj(map[]);
        assert keys[0] !in m ==> At(child, keys[1..]) == Undefined == At(v, keys);
        (match SetIn(child, keys[1..], val, stringify)
         case Err(e) => Err(e)
         case Ok(res) => Ok((Obj(m[keys[0] := res.0]), res.1)))
      case _ => Err(InOnPrimitive)
  }

  /** Through objects, `get`'s walk finds what `At` names, as long as every
      value before the last is truthy. */
  lemma {:induction false} LookupThroughObjects(v: Value, keys: seq<string>)
    requires forall i :: 0 <= i < |keys| ==> At(v, keys[..i]).Obj?
    ensures Lookup(v, keys) == Ok(At(v, keys))
    decreases |keys|
  {
    if keys != [] {
      assert At(v, keys[..0]) == v;
      var c := if keys[0] in v.fields then v.fields[keys[0]] else Undefined;
      if |keys| > 1 {
        assert keys[..1] == [keys[0]];
        assert At(v, keys[..1]) == At(c, []);
        forall i | 0 <= i < |keys[1..]|
          ensures At(c, keys[1..][..i]).Obj?
        {
          assert keys[..i + 1] == [keys[0]] + keys[1..][..i];
          assert At(v, keys[..i + 1]).Obj?;
        }
        LookupThroughObjects(c, keys[1..]);
      }
    }
  }

  /** After a successful `_set` of a defined value, `get` of the same path
      returns it. */
  lemma {:induction false} GetAfterSet(v: Value, keys: seq<string>, val: Value, stringify: Stringify)
    requires |keys| >= 1 && val != Undefined
    requires SetIn(v, keys, val, stringify).Ok?
    ensures Lookup(SetIn(v, keys, val, stringify).value.0, keys) == Ok(val)
    decreases |keys|
  {
    var v' := SetIn(v, keys, val, stringify).value.0;
    if |keys| > 1 {
      var child := if keys[0] in v.fields then v.fields[keys[0]] else Obj(map[]);
      GetAfterSet(child, keys[1..], val, stringify);
      assert v'.fields[keys[0]] == SetIn(child, keys[1..], val, stringify).value.0;
    }
  }

  // ---------------------------------------------------------------------------
  // set's two forms

  /** `set`'s argument: a path and a value, or an object whose keys (in
      `Object.keys` order) are paths to set; `null` is an object too. */
  datatype SetArg = One(ref: Ref, val: Value) | Each(entries: seq<(string, Value)>) | NullObject

  /** `_set` on a whole path argument: a falsy path changes nothing. */
  function SetRef(v: Value, ref: Ref, val: Value, stringify: Stringify): (r: (Value, Result<bool>))
    ensures !RefTruthy(ref) ==> r == (v, Ok(false))
    ensures r.1.Err? ==> r.0 == v
  {
    if !RefTruthy(ref) then (v, Ok(false))
    else
      match SetIn(v, SetKeys(ref), val, stringify)
      case Err(e) => (v, Err(e))
      case Ok(res) => (res.0, Ok(res.1))
  }

  /** The object form: every key is set in turn and the change flags are
      OR-ed; a throw stops it, keeping the keys set before. */
  function SetEach(v: Value, entries: seq<(string, Value)>, stringify: Stringify): (r: (Value, Result<bool>))
    ensures entries == [] ==> r == (v, Ok(false))
    decreases |entries|
  {
    if entries == [] then (v, Ok(false))
    else
      var first := SetRef(v, RefString(entries[0].0), entries[0].1, stringify);
      if first.1.Err? then first
      else
        var rest := SetEach(first.0, entries[1..], stringify);
        (rest.0, if rest.1.Err? then rest.1 else Ok(first.1.value || rest.1.value))
  }

  /** The keys are processed in order: setting `a + b` is setting `a`, then
      `b` on the result, with the flags OR-ed. */
  lemma {:induction false} SetEachAppend(v: Value, a: seq<(string, Value)>, b: seq<(string, Value)>, stringify: Stringify)
    ensures var ra := SetEach(v, a, stringify);
            var rb := SetEach(ra.0, b, stringify);
            SetEach(v, a + b, stringify) ==
              if ra.1.Err? then ra
              else (rb.0, if rb.1.Err? then rb.1 else Ok(ra.1.value || rb.1.value))
    decreases |a|
  {
    if a != [] {
      assert (a + b)[0] == a[0];
      assert (a + b)[1..] == a[1..] + b;
      var first := SetRef(v, RefString(a[0].0), a[0].1, stringify);
      if first.1.Ok? {
        SetEachAppend(first.0, a[1..], b, stringify);
      }
    } else {
      assert a + b == b;
    }
  }

  /** `set` on the tree. */
  function SetAll(v: Value, arg: SetArg, stringify: Stringify): (r: (Value, Result<bool>))
    ensures arg.NullObject? ==> r == (v, Err(KeysOfNull))
  {
    match arg
    case One(ref, val) => SetRef(v, ref, val, stringify)
    case Each(entries) => SetEach(v, entries, stringify)
    case NullObject => (v, Err(KeysOfNull))
  }

  // ---------------------------------------------------------------------------
  // the hub

  class Hub {
    /** `_state`. */
    var state: Value
    /** `_dispatching`: a dispatch is scheduled and has not run yet. */
    var dispatching: bool
    /** The `nextTick` callbacks scheduled and not yet run. */
    var pending: nat
    /** How many "dispatch" events have been emitted. */
    var emitted: nat
    /** `_stores`: each created store, with the dump it was inflated from. */
    var stores: map<string, Value>

    /** At most one dispatch is pending, and exactly when the flag is set. */
    predicate Valid()
      reads this
    {
      pending == (if dispatching then 1 else 0)
    }

    constructor ()
      ensures state == Obj(map[]) && !dispatching && pending == 0 && emitted == 0 && stores == map[]
      ensures Valid()
    {
      state := Obj(map[]);
      dispatching := false;
      pending := 0;
      emitted := 0;
      stores := map[];
    }

    /** `_dispatch`: schedule a dispatch unless one is already pending. */
    method Dispatch()
      modifies this
      ensures dispatching
      ensures pending == if old(dispatching) then old(pending) else old(pending) + 1
      ensures state == old(state) && emitted == old(emitted) && stores == old(stores)
      ensures old(Valid()) ==> Valid() && pending == 1
    {
      if !dispatching {
        pending := pending + 1;
      }
      dispatching := true;
    }

    /** The scheduled callback: emit "dispatch", then clear the flag. */
    method RunDispatch()
      requires pending > 0
      modifies this
      ensures emitted == old(emitted) + 1 && pending == old(pending) - 1 && !dispatching
      ensures state == old(state) && stores == old(stores)
      ensures old(Valid()) ==> Valid() && pending == 0
    {
      emitted := emitted + 1;
      dispatching := false;
      pending := pending - 1;
    }

    /** `get`: a falsy path gives undefined. */
    method Get(ref: Ref) returns (r: Result<Value>)
      ensures !RefTruthy(ref) ==> r == Ok(Undefined)
      ensures RefTruthy(ref) ==> r == Lookup(state, Keys(ref))
    {
      if !RefTruthy(ref) {
        return Ok(Undefined);
      }
      var k := Keys(ref);
      var v := state;
      var i := 0;
      while i < |k|
        invariant 0 <= i <= |k|
        invariant Lookup(v, k[i..]) == Lookup(state, k)
      {
        assert k[i..][1..] == k[i + 1..];
        var m := Member(v, k[i]);
        if m.Err? {
          return Err(m.error);
        }
        v := m.value;
        i := i + 1;
        if !Truthy(v) {
          return Ok(v);
        }
      }
      return Ok(v);
    }

    /** `_set`. */
    method SetPath(ref: Ref, val: Value, stringify: Stringify) returns (r: Result<bool>)
      modifies this
      ensures (state, r) == SetRef(old(state), ref, val, stringify)
      ensures dispatching == old(dispatching) && pending == old(pending)
      ensures emitted == old(emitted) && stores == old(stores)
    {
      if !RefTruthy(ref) {
        return Ok(false);
      }
      var res := SetIn(state, SetKeys(ref), val, stringify);
      if res.Err? {
        return Err(res.error);
      }
      state := res.value.0;
      r := Ok(res.value.1);
    }

    /** `set`: a dispatch is scheduled only when something changed. */
    method Set(arg: SetArg, stringify: Stringify) returns (r: Result<bool>)
      modifies this
      ensures (state, r) == SetAll(old(state), arg, stringify)
      ensures r == Ok(true) ==> dispatching && pending == (if old(dispatching) then old(pending) else old(pending) + 1)
      ensures r != Ok(true) ==> dispatching == old(dispatching) && pending == old(pending)
      ensures emitted == old(emitted) && stores == old(stores)
      ensures old(Valid()) ==> Valid()
    {
      match arg {
        case NullObject =>
          return Err(KeysOfNull);
        case One(ref, val) =>
          r := SetPath(ref, val, stringify);
        case Each(entries) =>
          var change := false;
          var i := 0;
          while i < |entries|
            invariant 0 <= i <= |entries|
            invariant dispatching == old(dispatching) && pending == old(pending)
            invariant emitted == old(emitted) && stores == old(stores)
            invariant var rest := SetEach(state, entries[i..], stringify);
                      var whole := SetEach(old(state), entries, stringify);
                      rest.0 == whole.0 &&
                      (rest.1.Err? ==> whole.1 == rest.1) &&
                      (rest.1.Ok? ==> whole.1 == Ok(change || rest.1.value))
          {
            assert entries[i..][1..] == entries[i + 1..];
            var c := SetPath(RefString(entries[i].0), entries[i].1, stringify);
            if c.Err? {
              return c;
            }
            change := c.value || change;
            i := i + 1;
          }
          r := Ok(change);
      }
      if r == Ok(true) {
        Dispatch();
      }
    }

    /** `unset`: `set` with an undefined value. */
    method Unset(ref: Ref, stringify: Stringify) returns (r: Result<bool>)
      modifies this
      ensures (state, r) == SetRef(old(state), ref, Undefined, stringify)
      ensures r == Ok(true) ==> dispatching
      ensures r != Ok(true) ==> dispatching == old(dispatching) && pending == old(pending)
      ensures emitted == old(emitted) && stores == old(stores)
      ensures old(Valid()) ==> Valid()
    {
      r := Set(One(ref, Undefined), stringify);
    }

    /** `inflate`: the state is replaced, then for each dumped name in turn
        a store is created and handed its dump. An unregistered name throws;
        so does a store whose own `inflate` refuses its dump (`refuses` says
        which), after that store was created. Either way the stores created
        before stay. */
    method Inflate(dumpState: Value, dumpStores: seq<(string, Value)>, registry: set<string>,
                   refuses: (string, Value) -> Option<Error>) returns (err: Option<Error>)
      modifies this
      ensures state == dumpState
      ensures err.None? <==> forall i :: 0 <= i < |dumpStores| ==> Accepted(dumpStores[i], registry, refuses)
      ensures err.None? ==> stores == Created(old(stores), dumpStores)
      ensures err.Some? ==>
                exists n :: 0 <= n < |dumpStores| && !Accepted(dumpStores[n], registry, refuses) &&
                            (forall i :: 0 <= i < n ==> Accepted(dumpStores[i], registry, refuses)) &&
                            (dumpStores[n].0 !in registry ==>
                               err.value == Message("Cannot create Store: `" + dumpStores[n].0 + "`") &&
                               stores == Created(old(stores), dumpStores[..n])) &&
                            (dumpStores[n].0 in registry ==>
                               err == refuses(dumpStores[n].0, dumpStores[n].1) &&
                               stores == Created(old(stores), dumpStores[..n + 1]))
      ensures dispatching == old(dispatching) && pending == old(pending) && emitted == old(emitted)
    {
      state := dumpState;
      var i := 0;
      while i < |dumpStores|
        invariant 0 <= i <= |dumpStores|
        invariant forall j :: 0 <= j < i ==> Accepted(dumpStores[j], registry, refuses)
        invariant stores == Created(old(stores), dumpStores[..i])
        invariant state == dumpState
        invariant dispatching == old(dispatching) && pending == old(pending) && emitted == old(emitted)
      {
        var (name, dump) := dumpStores[i];
        if name !in registry {
          err := Some(Message("Cannot create Store: `" + name + "`"));
          assert dumpStores[i].0 !in registry && err.value == Message("Cannot create Store: `" + dumpStores[i].0 + "`");
          return;
        }
        assert dumpStores[..i + 1] == dumpStores[..i] + [dumpStores[i]];
        CreatedAppend(old(stores), dumpStores[..i], dumpStores[i]);
        stores := stores[name := dump];
        var refused := refuses(name, dump);
        if refused.Some? {
          err := refused;
          return;
        }
        i := i + 1;
      }
      assert dumpStores[..i] == dumpStores;
      err := None;
    }
  }

  /** A dumped store that `inflate` gets through: its name is registered and
      its own `inflate` takes the dump. */
  predicate Accepted(d: (string, Value), registry: set<string>, refuses: (string, Value) -> Option<Error>) {
    d.0 in registry && refuses(d.0, d.1).None?
  }

  /** The stores after creating each dumped one in turn. */
  function Created(stores: map<string, Value>, dumps: seq<(string, Value)>): (r: map<string, Value>)
    ensures r.Keys == stores.Keys + set i | 0 <= i < |dumps| :: dumps[i].0
    decreases |dumps|
  {
    if dumps == [] then stores
    else Created(stores[dumps[0].0 := dumps[0].1], dumps[1..])
  }

  lemma {:induction false} CreatedAppend(stores: map<string, Value>, dumps: seq<(string, Value)>, d: (string, Value))
    ensures Created(stores, dumps + [d]) == Created(stores, dumps)[d.0 := d.1]
    decreases |dumps|
  {
    if dumps != [] {
      assert (dumps + [d])[1..] == dumps[1..] + [d];
      CreatedAppend(stores[dumps[0].0 := dumps[0].1], dumps[1..], d);
    }
  }
}
