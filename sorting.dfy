/** `Array.prototype.sort` with a comparator of the form
    `(a, b) => key(b) - key(a)`: a stable sort into non-increasing key
    order. A stable sort is fully determined by its comparator, so it is
    written here as an insertion sort. */
module Sorting {

  /** Places `x` in front of the first element whose key is not greater. */
  function Insert<T>(x: T, s: seq<T>, key: T -> int): (r: seq<T>)
    ensures multiset(r) == multiset(s) + multiset{x}
  {
    if s == [] then [x]
    else if key(s[0]) <= key(x) then [x] + s
    else
      assert s == [s[0]] + s[1..];
      [s[0]] + Insert(x, s[1..], key)
  }

  /** Sorts `s` into non-increasing key order, keeping equal keys in their
      original order. */
  function SortDesc<T>(s: seq<T>, key: T -> int): (r: seq<T>)
  {
    if s == [] then [] else Insert(s[0], SortDesc(s[1..], key), key)
  }

  predicate Descending<T>(s: seq<T>, key: T -> int)
  {
    forall i, j :: 0 <= i < j < |s| ==> key(s[i]) >= key(s[j])
  }

  lemma DescendingTail<T>(s: seq<T>, key: T -> int)
    requires s != [] && Descending(s, key)
    ensures Descending(s[1..], key)
  {
    var tail := s[1..];
    forall i, j | 0 <= i < j < |tail| ensures key(tail[i]) >= key(tail[j]) {
      assert tail[i] == s[i + 1] && tail[j] == s[j + 1];
    }
  }

  lemma ConsDescending<T>(h: T, rest: seq<T>, key: T -> int)
    requires Descending(rest, key)
    requires forall y :: y in rest ==> key(y) <= key(h)
    ensures Descending([h] + rest, key)
  {
    var r := [h] + rest;
    forall i, j | 0 <= i < j < |r| ensures key(r[i]) >= key(r[j]) {
      assert r[j] == rest[j - 1];
      if i > 0 {
        assert r[i] == rest[i - 1];
      }
    }
  }

  /** Inserting an element no greater than `b` into elements no greater
      than `b` keeps every element no greater than `b`. */
  lemma InsertBelow<T>(x: T, s: seq<T>, key: T -> int, b: int)
    requires key(x) <= b
    requires forall y :: y in s ==> key(y) <= b
    ensures forall y :: y in Insert(x, s, key) ==> key(y) <= b
  {
    var r := Insert(x, s, key);
    forall y | y in r ensures key(y) <= b {
      assert y in multiset(r);
    }
  }

  lemma {:induction false} InsertDescending<T>(x: T, s: seq<T>, key: T -> int)
    requires Descending(s, key)
    ensures Descending(Insert(x, s, key), key)
  {
    if s != [] && key(s[0]) > key(x) {
      var tail := s[1..];
      DescendingTail(s, key);
      InsertDescending(x, tail, key);
      forall y | y in tail ensures key(y) <= key(s[0]) {
        var j :| 0 <= j < |tail| && tail[j] == y;
        assert s[j + 1] == y;
      }
      InsertBelow(x, tail, key, key(s[0]));
      ConsDescending(s[0], Insert(x, tail, key), key);
    }
  }

  /** The result is in non-increasing key order and holds the same elements. */
  lemma {:induction false} SortDescSpec<T>(s: seq<T>, key: T -> int)
    ensures Descending(SortDesc(s, key), key)
    ensures multiset(SortDesc(s, key)) == multiset(s)
  {
    if s != [] {
      SortDescSpec(s[1..], key);
      InsertDescending(s[0], SortDesc(s[1..], key), key);
      assert s == [s[0]] + s[1..];
    }
  }

  /** The elements of `s` whose key is `k`, in order. */
  function WithKey<T>(s: seq<T>, key: T -> int, k: int): seq<T>
  {
    if s == [] then [] else (if key(s[0]) == k then [s[0]] else []) + WithKey(s[1..], key, k)
  }

  lemma {:induction false} InsertWithKey<T>(x: T, s: seq<T>, key: T -> int, k: int)
    requires Descending(s, key)
    ensures WithKey(Insert(x, s, key), key, k)
         == if key(x) == k then [x] + WithKey(s, key, k) else WithKey(s, key, k)
  {
    if s != [] {
      if key(s[0]) <= key(x) {
        assert Insert(x, s, key)[1..] == s;
      } else {
        var tail := s[1..];
        DescendingTail(s, key);
        InsertWithKey(x, tail, key, k);
        assert Insert(x, s, key)[1..] == Insert(x, tail, key);
        if key(x) == k {
          assert key(s[0]) != k;
        }
      }
    }
  }

  /** Stability: the elements sharing a key keep their original order. */
  lemma {:induction false} SortDescStable<T>(s: seq<T>, key: T -> int, k: int)
    ensures WithKey(SortDesc(s, key), key, k) == WithKey(s, key, k)
  {
    if s != [] {
      SortDescStable(s[1..], key, k);
      SortDescSpec(s[1..], key);
      InsertWithKey(s[0], SortDesc(s[1..], key), key, k);
    }
  }

  /** The first position holding the greatest key. */
  function FirstMaxIndex<T>(s: seq<T>, key: T -> int): (i: nat)
    requires |s| > 0
    ensures i < |s|
    ensures forall j :: 0 <= j < |s| ==> key(s[j]) <= key(s[i])
    ensures forall j :: 0 <= j < i ==> key(s[j]) < key(s[i])
  {
    if |s| == 1 then 0
    else
      var m := FirstMaxIndex(s[1..], key);
      assert forall j :: 1 <= j < |s| ==> s[j] == s[1..][j - 1];
      if key(s[0]) >= key(s[1 + m]) then 0 else 1 + m
  }

  /** The head of the sorted sequence is the first element with the greatest
      key: ties go to the earlier element. */
  lemma {:induction false} SortDescHead<T>(s: seq<T>, key: T -> int)
    requires |s| > 0
    ensures |SortDesc(s, key)| == |s|
    ensures SortDesc(s, key)[0] == s[FirstMaxIndex(s, key)]
  {
    SortDescSpec(s, key);
    assert |multiset(SortDesc(s, key))| == |multiset(s)|;
    if |s| > 1 {
      SortDescHead(s[1..], key);
    }
  }
}
