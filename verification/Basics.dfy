/** Small vocabulary shared by every module: optional values, bounds, sequences without repetition and sums. */
module Basics {

  datatype Option<+T> = None | Some(value: T)

  function Min(a: real, b: real): real {
    if a <= b then a else b
  }

  function Max(a: real, b: real): real {
    if a <= b then b else a
  }

  lemma ScaledIsBounded(a: real, b: real)
    requires a >= 0.0 && 0.0 <= b <= 1.0
    ensures 0.0 <= a * b <= a
  {
    assert a * (1.0 - b) >= 0.0;
  }

  ghost predicate Distinct<T(!new)>(s: seq<T>) {
    forall i, j :: 0 <= i < j < |s| ==> s[i] != s[j]
  }

  lemma ConcatDistinct<T(!new)>(a: seq<T>, b: seq<T>)
    requires Distinct(a) && Distinct(b) && forall x :: x in a ==> x !in b
    ensures Distinct(a + b)
  {
    forall i, j | 0 <= i < j < |a + b| ensures (a + b)[i] != (a + b)[j] {
      if i < |a| <= j { assert a[i] in a && b[j - |a|] in b; }
    }
  }

  function ToSet<T(!new)>(s: seq<T>): (r: set<T>)
    ensures forall x :: x in r <==> x in s
  {
    set x | x in s
  }

  ghost function Pick<T(!new)>(s: set<T>): (r: T)
    requires s != {}
    ensures r in s
  {
    var x :| x in s; x
  }

  lemma SomeMember(s: set<int>)
    requires s != {}
    ensures exists x :: x in s
  {
    var x := Pick(s);
    assert x in s;
  }

  // The value recorded for x, where a missing entry counts as nothing.
  function Entry(m: map<int, real>, x: int): real {
    if x in m then m[x] else 0.0
  }

  function Sum(ids: seq<int>, m: map<int, real>): real {
    if ids == [] then 0.0 else Entry(m, ids[0]) + Sum(ids[1..], m)
  }

  lemma {:induction false} SumUnaffected(ids: seq<int>, m: map<int, real>, x: int, v: real)
    requires x !in ids
    ensures Sum(ids, m[x := v]) == Sum(ids, m)
  {
    if ids != [] {
      SumUnaffected(ids[1..], m, x, v);
    }
  }

  // A fresh entry adds exactly its own value to the sum over a repetition-free list that holds it.
  lemma {:induction false} SumAddsEntry(ids: seq<int>, m: map<int, real>, x: int, v: real)
    requires Distinct(ids) && x in ids && x !in m
    ensures Sum(ids, m[x := v]) == Sum(ids, m) + v
  {
    if ids[0] == x {
      SumUnaffected(ids[1..], m, x, v);
    } else {
      SumAddsEntry(ids[1..], m, x, v);
    }
  }

  lemma {:induction false} DistinctLength<T(!new)>(s: seq<T>)
    requires Distinct(s)
    ensures |ToSet(s)| == |s|
  {
    if s != [] {
      DistinctLength(s[1..]);
      assert s == [s[0]] + s[1..];
      assert ToSet(s) == {s[0]} + ToSet(s[1..]);
      assert s[0] !in ToSet(s[1..]);
    }
  }
}
