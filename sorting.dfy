/** Python's `sorted(xs, key=k, reverse=True)` and `list.sort(key=k,
    reverse=True)` for keys that are numbers or pairs of numbers compared
    lexicographically, as a stable insertion sort. */
module Sorting {

  /** A sort key: a number, or a pair of numbers compared lexicographically
      (a single number is written with `minor` 0). */
  datatype Key = Key(major: real, minor: real)

  predicate KeyLe(a: Key, b: Key) {
    a.major < b.major || (a.major == b.major && a.minor <= b.minor)
  }

  predicate SortedDesc<T>(s: seq<T>, key: T -> Key) {
    forall i, j :: 0 <= i < j < |s| ==> KeyLe(key(s[j]), key(s[i]))
  }

  /** Puts `x` in front of the first element whose key is not above its own,
      so `x` precedes the elements of `s` that have the same key. */
  function InsertDesc<T>(x: T, s: seq<T>, key: T -> Key): (r: seq<T>)
    requires SortedDesc(s, key)
    ensures |r| == |s| + 1
    ensures SortedDesc(r, key)
    ensures multiset(r) == multiset(s) + multiset{x}
    decreases |s|
  {
    if s == [] then [x]
    else if KeyLe(key(s[0]), key(x)) then [x] + s
    else
      var tail := InsertDesc(x, s[1..], key);
      assert s == [s[0]] + s[1..];
      assert forall k :: 0 <= k < |tail| ==> KeyLe(key(tail[k]), key(s[0])) by {
        forall k | 0 <= k < |tail|
          ensures KeyLe(key(tail[k]), key(s[0]))
        {
          assert tail[k] in multiset(tail);
          assert tail[k] == x || tail[k] in multiset(s[1..]);
          if tail[k] != x {
            var m :| 0 <= m < |s[1..]| && s[1..][m] == tail[k];
            assert s[m + 1] == tail[k];
          }
        }
      }
      [s[0]] + tail
  }

  /** The elements of `s` in descending key order; equal keys keep their
      original relative order. */
  function SortDesc<T>(s: seq<T>, key: T -> Key): (r: seq<T>)
    ensures |r| == |s|
    ensures SortedDesc(r, key)
    ensures multiset(r) == multiset(s)
    decreases |s|
  {
    if s == [] then []
    else
      assert s == [s[0]] + s[1..];
      InsertDesc(s[0], SortDesc(s[1..], key), key)
  }

  /** The elements of `s` whose key is `k`, in order. */
  function WithKey<T>(s: seq<T>, key: T -> Key, k: Key): seq<T>
    decreases |s|
  {
    if s == [] then []
    else (if key(s[0]) == k then [s[0]] else []) + WithKey(s[1..], key, k)
  }

  lemma WithKeyCons<T>(x: T, s: seq<T>, key: T -> Key, k: Key)
    ensures WithKey([x] + s, key, k) == (if key(x) == k then [x] else []) + WithKey(s, key, k)
  {
    assert ([x] + s)[1..] == s;
  }

  lemma KeyAboveDiffers(a: Key, b: Key)
    requires !KeyLe(a, b)
    ensures a != b
  {
  }

  /** Two pieces of which one is empty can trade places. */
  lemma SwapEmpty<T>(p: seq<T>, q: seq<T>, rest: seq<T>)
    requires p == [] || q == []
    ensures p + (q + rest) == q + (p + rest)
  {
  }

  /** Inserting `x` puts it in front of the elements with its own key and
      leaves the order of every key's elements otherwise alone. */
  lemma {:induction false} InsertDescStable<T>(x: T, s: seq<T>, key: T -> Key, k: Key)
    requires SortedDesc(s, key)
    ensures WithKey(InsertDesc(x, s, key), key, k) == (if key(x) == k then [x] else []) + WithKey(s, key, k)
    decreases |s|
  {
    if s == [] || KeyLe(key(s[0]), key(x)) {
      WithKeyCons(x, s, key, k);
    } else {
      var tail := InsertDesc(x, s[1..], key);
      assert InsertDesc(x, s, key) == [s[0]] + tail;
      InsertDescStable(x, s[1..], key, k);
      KeyAboveDiffers(key(s[0]), key(x));
      PassOver(x, s, tail, key, k);
    }
  }

  /** Passing over a front element whose key differs from `x`'s keeps the
      relation between the lists with and without `x`. */
  lemma PassOver<T>(x: T, s: seq<T>, tail: seq<T>, key: T -> Key, k: Key)
    requires s != [] && key(s[0]) != key(x)
    requires WithKey(tail, key, k) == (if key(x) == k then [x] else []) + WithKey(s[1..], key, k)
    ensures WithKey([s[0]] + tail, key, k) == (if key(x) == k then [x] else []) + WithKey(s, key, k)
  {
    var px := if key(x) == k then [x] else [];
    var py := if key(s[0]) == k then [s[0]] else [];
    WithKeyCons(s[0], tail, key, k);
    SwapEmpty(py, px, WithKey(s[1..], key, k));
  }

  /** The sort is stable: for every key, the elements with that key come
      out in the order they went in, as Python's sort guarantees. */
  lemma {:induction false} SortDescStable<T>(s: seq<T>, key: T -> Key, k: Key)
    ensures WithKey(SortDesc(s, key), key, k) == WithKey(s, key, k)
    decreases |s|
  {
    if s != [] {
      SortDescStable(s[1..], key, k);
      InsertDescStable(s[0], SortDesc(s[1..], key), key, k);
    }
  }

  /** A prefix of a descending list is descending, is drawn from the list,
      and whatever it leaves out has a key no higher than any key in it. */
  lemma {:induction false} PrefixIsTop<T>(s: seq<T>, key: T -> Key, k: nat)
    requires SortedDesc(s, key) && k <= |s|
    ensures SortedDesc(s[..k], key)
    ensures multiset(s[..k]) <= multiset(s)
    ensures forall x, i :: x in multiset(s) - multiset(s[..k]) && 0 <= i < k ==> KeyLe(key(x), key(s[i]))
  {
    assert s == s[..k] + s[k..];
    assert multiset(s) == multiset(s[..k]) + multiset(s[k..]);
    forall x, i | x in multiset(s) - multiset(s[..k]) && 0 <= i < k
      ensures KeyLe(key(x), key(s[i]))
    {
      assert x in multiset(s[k..]);
      var j :| 0 <= j < |s[k..]| && s[k..][j] == x;
      assert s[k + j] == x;
    }
  }
}
