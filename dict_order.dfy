// The key order of a Python dict: insertion order. The OBJ loader relies on it twice,
// for the vertex table of a surface and for the buckets of a mesh.
module DictOrder {
  predicate Distinct<T(==,!new)>(s: seq<T>) {
    forall i, j :: 0 <= i < j < |s| ==> s[i] != s[j]
  }

  /** The position of the first occurrence of x in s, or |s| when x does not occur. */
  function Position<T(==,!new)>(s: seq<T>, x: T): (i: nat)
    ensures i <= |s|
    ensures x in s ==> i < |s| && s[i] == x && x !in s[..i]
    ensures x !in s ==> i == |s|
  {
    if |s| == 0 then 0
    else if s[0] == x then 0
    else
      var i := 1 + Position(s[1..], x);
      assert x in s ==> s[..i] == [s[0]] + s[1..][..i - 1];
      i
  }

  /** The distinct items of s in the order in which they first occur: the keys of a dict
      after setting, or setdefault-ing, each item of s in turn. */
  function FirstSeen<T(==,!new)>(s: seq<T>): (f: seq<T>)
    ensures forall x :: x in f <==> x in s
    ensures Distinct(f)
  {
    if |s| == 0 then []
    else
      var init := s[..|s| - 1];
      assert s == init + [s[|s| - 1]];
      var f := FirstSeen(init);
      if s[|s| - 1] in f then f else f + [s[|s| - 1]]
  }

  /** In a sequence without repeats, each item is found where it stands. */
  lemma {:induction false} PositionOfDistinct<T(!new)>(s: seq<T>, i: nat)
    requires Distinct(s) && i < |s|
    ensures Position(s, s[i]) == i
  {
    if i > 0 {
      assert s[0] != s[i];
      assert s[1..][i - 1] == s[i];
      PositionOfDistinct(s[1..], i - 1);
    }
  }

  /** Appending to a sequence does not move what was already in it. */
  lemma {:induction false} PositionAppend<T(!new)>(s: seq<T>, y: T, x: T)
    requires x in s
    ensures Position(s + [y], x) == Position(s, x)
  {
    if s[0] != x {
      assert (s + [y])[1..] == s[1..] + [y];
      PositionAppend(s[1..], y, x);
    }
  }

  /** Key k of a dict was first inserted before key k + 1. */
  lemma {:induction false} FirstSeenOrder<T(!new)>(s: seq<T>, i: nat, j: nat)
    requires i < j < |FirstSeen(s)|
    ensures Position(s, FirstSeen(s)[i]) < Position(s, FirstSeen(s)[j])
  {
    var init := s[..|s| - 1];
    var last := s[|s| - 1];
    assert s == init + [last];
    var f := FirstSeen(init);
    var x, y := FirstSeen(s)[i], FirstSeen(s)[j];
    assert x in init;
    PositionAppend(init, last, x);
    if j < |f| {
      FirstSeenOrder(init, i, j);
      assert y in init;
      PositionAppend(init, last, y);
    } else {
      assert y == last && last !in init;
      assert s[|init|] == y;
    }
  }

  /** A new item keeps a list without repeats free of them. */
  lemma DistinctSnoc<T(!new)>(s: seq<T>, x: T)
    requires Distinct(s) && x !in s
    ensures Distinct(s + [x])
  {
    var t := s + [x];
    forall i, j | 0 <= i < j < |t|
      ensures t[i] != t[j]
    {
      if j == |s| {
        assert t[i] == s[i];
      }
    }
  }

  /** A new item is found at the end. */
  lemma {:induction false} PositionAppendNew<T(!new)>(s: seq<T>, x: T)
    requires x !in s
    ensures Position(s + [x], x) == |s|
  {
    if |s| > 0 {
      assert (s + [x])[1..] == s[1..] + [x];
      PositionAppendNew(s[1..], x);
    }
  }

  /** What a dict's keys were before more keys were added stays where it was. */
  lemma {:induction false} PositionPrefix<T(!new)>(a: seq<T>, b: seq<T>, x: T)
    requires x in a && a <= b
    ensures Position(b, x) == Position(a, x)
  {
    if a[0] != x {
      assert b[0] == a[0] && a[1..] <= b[1..];
      PositionPrefix(a[1..], b[1..], x);
    }
  }
}
