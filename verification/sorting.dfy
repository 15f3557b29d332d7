/**
 * Python's `list.sort(key=...)` and `sorted(...)` over string keys: a stable
 * sort into non-decreasing key order. Modelled as an insertion sort that
 * places each element before the first element whose key is not smaller,
 * which keeps equal keys in their original order.
 */
module Sorting {
  import opened Strings

  ghost predicate SortedBy<T>(s: seq<T>, key: T -> string)
  {
    forall i, j :: 0 <= i < j < |s| ==> LessEq(key(s[i]), key(s[j]))
  }

  /** Inserts `x` into a sorted sequence, ahead of every element with an equal key. */
  function InsertBy<T>(x: T, s: seq<T>, key: T -> string): (r: seq<T>)
    requires SortedBy(s, key)
    ensures SortedBy(r, key)
    ensures multiset(r) == multiset(s) + multiset{x}
    ensures |r| == |s| + 1
  {
    if |s| == 0 then [x]
    else if LessEq(key(x), key(s[0])) then
      InsertFrontSorted(x, s, key);
      [x] + s
    else
      var tail := InsertBy(x, s[1..], key);
      assert s == [s[0]] + s[1..];
      LessEqTotal(key(x), key(s[0]));
      InsertBehindSorted(s[0], tail, x, s[1..], key);
      [s[0]] + tail
  }

  lemma InsertFrontSorted<T>(x: T, s: seq<T>, key: T -> string)
    requires |s| > 0 && SortedBy(s, key) && LessEq(key(x), key(s[0]))
    ensures SortedBy([x] + s, key)
  {
    var r := [x] + s;
    forall i, j | 0 <= i < j < |r|
      ensures LessEq(key(r[i]), key(r[j]))
    {
      if i == 0 && j > 1 {
        LessEqTransitive(key(x), key(s[0]), key(s[j - 1]));
      }
    }
  }

  lemma InsertBehindSorted<T>(h: T, tail: seq<T>, x: T, rest: seq<T>, key: T -> string)
    requires SortedBy(tail, key)
    requires multiset(tail) == multiset(rest) + multiset{x}
    requires LessEq(key(h), key(x))
    requires forall i :: 0 <= i < |rest| ==> LessEq(key(h), key(rest[i]))
    ensures SortedBy([h] + tail, key)
  {
    var r := [h] + tail;
    forall i, j | 0 <= i < j < |r|
      ensures LessEq(key(r[i]), key(r[j]))
    {
      if i == 0 {
        var y := tail[j - 1];
        assert y in multiset(tail);
        if y != x {
          assert y in multiset(rest);
          var k :| 0 <= k < |rest| && rest[k] == y;
        }
      }
    }
  }

  /** The stable sort: the result is a sorted permutation of the input. */
  function SortBy<T>(s: seq<T>, key: T -> string): (r: seq<T>)
    ensures SortedBy(r, key)
    ensures multiset(r) == multiset(s)
    ensures |r| == |s|
  {
    if |s| == 0 then []
    else
      assert s == [s[0]] + s[1..];
      InsertBy(s[0], SortBy(s[1..], key), key)
  }
}
