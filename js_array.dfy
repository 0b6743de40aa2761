/** The `Array.prototype` operations the UI stores rely on, over values
    compared with `===`. */
module JsArray {

  import opened Common

  /** `indexOf`: the first position holding `x`, or -1 when there is none. */
  function IndexOf<T(==)>(s: seq<T>, x: T): (r: int)
    ensures -1 <= r < |s|
    ensures r == -1 <==> x !in s
    ensures 0 <= r ==> s[r] == x && x !in s[..r]
  {
    if s == [] then -1
    else if s[0] == x then 0
    else
      var j := IndexOf(s[1..], x);
      if j < 0 then -1
      else
        assert s[..j + 1] == [s[0]] + s[1..][..j];
        j + 1
  }

  /** `splice(start, 1)` for a start that `indexOf` can return: a start of
      -1 counts from the end, so it removes the last element, if any. */
  function SpliceOne<T>(s: seq<T>, start: int): (r: seq<T>)
    requires -1 <= start < |s|
    ensures s == [] ==> r == []
    ensures 0 <= start ==> r == s[..start] + s[start + 1..]
    ensures start < 0 && s != [] ==> r == s[..|s| - 1]
  {
    if start >= 0 then s[..start] + s[start + 1..]
    else if s == [] then []
    else s[..|s| - 1]
  }

  /** The reference definition: `s` less its first occurrence of `x`. */
  function Without<T(==)>(s: seq<T>, x: T): (r: seq<T>)
    ensures x !in s ==> r == s
    ensures x in s ==> |r| == |s| - 1
  {
    if s == [] then []
    else if s[0] == x then s[1..]
    else [s[0]] + Without(s[1..], x)
  }

  /** `Without` takes away exactly one occurrence of a value present. */
  lemma {:induction false} WithoutMultiset<T>(s: seq<T>, x: T)
    ensures multiset(Without(s, x)) == multiset(s) - multiset{x}
  {
    if s != [] {
      assert s == [s[0]] + s[1..];
      if s[0] != x {
        WithoutMultiset(s[1..], x);
      }
    }
  }

  /** Removing at the position `indexOf` finds removes the first occurrence. */
  lemma {:induction false} SpliceIndexOf<T>(s: seq<T>, x: T)
    requires x in s
    ensures SpliceOne(s, IndexOf(s, x)) == Without(s, x)
  {
    if s[0] == x {
      assert IndexOf(s, x) == 0;
      assert s[..0] + s[1..] == s[1..];
    } else {
      var t := s[1..];
      assert s == [s[0]] + t;
      assert x in t by {
        var k :| 0 <= k < |s| && s[k] == x;
        assert t[k - 1] == x;
      }
      SpliceIndexOf(t, x);
      IndexOfCons(s[0], t, x);
      WithoutCons(s[0], t, x);
      SpliceOneCons(s[0], t, IndexOf(t, x));
    }
  }

  /** `indexOf` past a head that differs. */
  lemma IndexOfCons<T>(h: T, t: seq<T>, x: T)
    requires h != x
    ensures IndexOf([h] + t, x) == if IndexOf(t, x) < 0 then -1 else IndexOf(t, x) + 1
  {
    assert ([h] + t)[1..] == t;
  }

  /** `Without` past a head that differs. */
  lemma WithoutCons<T>(h: T, t: seq<T>, x: T)
    requires h != x
    ensures Without([h] + t, x) == [h] + Without(t, x)
  {
    assert ([h] + t)[1..] == t;
  }

  /** Splicing one position further into a longer sequence. */
  lemma SpliceOneCons<T>(h: T, t: seq<T>, j: int)
    requires 0 <= j < |t|
    ensures SpliceOne([h] + t, j + 1) == [h] + SpliceOne(t, j)
  {
    assert ([h] + t)[..j + 1] == [h] + t[..j];
    assert ([h] + t)[j + 2..] == t[j + 1..];
  }

  /** Without duplicates, removing at the position `indexOf` finds takes
      away exactly that value and keeps every other one. */
  lemma SpliceIndexOfUnique<T>(s: seq<T>, x: T)
    requires NoDuplicates(s) && x in s
    ensures SpliceOne(s, IndexOf(s, x)) == Without(s, x)
    ensures NoDuplicates(Without(s, x)) && x !in Without(s, x)
    ensures forall y :: y != x ==> (y in Without(s, x) <==> y in s)
  {
    SpliceIndexOf(s, x);
    WithoutNoDuplicates(s, x);
    WithoutMultiset(s, x);
    forall y | y != x
      ensures y in Without(s, x) <==> y in s
    {
      assert multiset(Without(s, x))[y] == multiset(s)[y];
    }
  }

  /** Appending a new value and then removing it gives the sequence back. */
  lemma {:induction false} WithoutAppended<T>(s: seq<T>, x: T)
    requires x !in s
    ensures Without(s + [x], x) == s
  {
    if s != [] {
      assert (s + [x])[1..] == s[1..] + [x];
      WithoutAppended(s[1..], x);
    }
  }

  /** Removing a value keeps the others free of duplicates, and the removed
      one is gone. */
  lemma {:induction false} WithoutNoDuplicates<T>(s: seq<T>, x: T)
    requires NoDuplicates(s)
    ensures NoDuplicates(Without(s, x)) && x !in Without(s, x)
  {
    if s != [] && s[0] != x {
      WithoutNoDuplicates(s[1..], x);
      assert forall k :: 0 <= k < |s| - 1 ==> s[1..][k] == s[k + 1];
      assert s[0] !in s[1..];
      assert s[0] !in Without(s[1..], x) by {
        WithoutMultiset(s[1..], x);
        assert multiset(Without(s[1..], x))[s[0]] <= multiset(s[1..])[s[0]];
      }
    } else if s != [] {
      assert forall k :: 0 <= k < |s| - 1 ==> s[1..][k] == s[k + 1];
      assert x !in s[1..];
    }
  }

  /** `unshift` of a value not yet present keeps the sequence free of
      duplicates. */
  lemma PrependNoDuplicates<T>(s: seq<T>, x: T)
    requires NoDuplicates(s) && x !in s
    ensures NoDuplicates([x] + s)
  {
    forall i, j | 0 <= i < j < |s| + 1
      ensures ([x] + s)[i] != ([x] + s)[j]
    {
      assert ([x] + s)[j] == s[j - 1];
    }
  }

  /** `push` of a value not yet present keeps the sequence free of
      duplicates. */
  lemma AppendNoDuplicates<T>(s: seq<T>, x: T)
    requires NoDuplicates(s) && x !in s
    ensures NoDuplicates(s + [x])
  {
    forall i, j | 0 <= i < j < |s| + 1
      ensures (s + [x])[i] != (s + [x])[j]
    {
      assert (s + [x])[i] == s[i];
    }
  }
}
